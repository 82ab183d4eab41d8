/** The Python `str` operations the scripts use: the `in` substring test,
    `replace` with one-character arguments, `split` and `join`. */
module PyStr {

  /** `pat` occurs in `text` starting at index `i`. */
  predicate OccursAt(text: string, pat: string, i: int) {
    0 <= i && i + |pat| <= |text| && text[i..i + |pat|] == pat
  }

  /** `pat in text`; the empty string occurs in every string. */
  function Contains(text: string, pat: string): (r: bool)
    ensures r <==> exists i :: OccursAt(text, pat, i)
    decreases |text|
  {
    if |text| < |pat| then false
    else if text[..|pat|] == pat then (assert OccursAt(text, pat, 0); true)
    else
      var r := Contains(text[1..], pat);
      assert forall i :: OccursAt(text[1..], pat, i) <==> OccursAt(text, pat, i + 1) by {
        forall i ensures OccursAt(text[1..], pat, i) <==> OccursAt(text, pat, i + 1) {
          if 0 <= i && i + |pat| <= |text| - 1 {
            assert text[1..][i..i + |pat|] == text[i + 1..i + 1 + |pat|];
          }
        }
      }
      assert r ==> exists i :: OccursAt(text, pat, i) by {
        if r {
          var i :| OccursAt(text[1..], pat, i);
          assert OccursAt(text, pat, i + 1);
        }
      }
      assert (exists i :: OccursAt(text, pat, i)) ==> r by {
        if exists i :: OccursAt(text, pat, i) {
          var i :| OccursAt(text, pat, i);
          assert i != 0;
          assert OccursAt(text[1..], pat, i - 1);
        }
      }
      r
  }

  /** `s.replace(c, d)` for one-character strings `c` and `d`. */
  function ReplaceChar(s: string, c: char, d: char): (r: string)
    ensures |r| == |s|
    ensures forall i :: 0 <= i < |s| ==> r[i] == if s[i] == c then d else s[i]
  {
    if s == [] then [] else [if s[0] == c then d else s[0]] + ReplaceChar(s[1..], c, d)
  }

  /** Replacing `c` by `d` and then `d` by `c` gives back a string that held no `d`. */
  lemma ReplaceCharRoundTrip(s: string, c: char, d: char)
    requires d !in s
    ensures ReplaceChar(ReplaceChar(s, c, d), d, c) == s
  {
    var r := ReplaceChar(ReplaceChar(s, c, d), d, c);
    forall i | 0 <= i < |s| ensures r[i] == s[i] {
      assert s[i] != d;
    }
  }

  /** `s.replace(c, "")`: `s` with every `c` deleted and the rest kept in order. */
  function RemoveChar(s: string, c: char): (r: string)
    ensures c !in r
  {
    if s == [] then [] else (if s[0] == c then [] else [s[0]]) + RemoveChar(s[1..], c)
  }

  /** Deleting `c` removes exactly the occurrences of `c`: every other
      character keeps its number of occurrences. */
  lemma {:induction false} RemoveCharCounts(s: string, c: char)
    ensures multiset(RemoveChar(s, c)) == multiset(s)[c := 0]
  {
    if s != [] {
      assert s == [s[0]] + s[1..];
      RemoveCharCounts(s[1..], c);
    }
  }

  /** Deleting from a concatenation deletes from each part. */
  lemma {:induction false} RemoveCharAppend(a: string, b: string, c: char)
    ensures RemoveChar(a + b, c) == RemoveChar(a, c) + RemoveChar(b, c)
  {
    if a != [] {
      var head := if a[0] == c then [] else [a[0]];
      assert (a + b)[0] == a[0] && (a + b)[1..] == a[1..] + b;
      calc {
        RemoveChar(a + b, c);
        head + RemoveChar(a[1..] + b, c);
        { RemoveCharAppend(a[1..], b, c); }
        head + (RemoveChar(a[1..], c) + RemoveChar(b, c));
        (head + RemoveChar(a[1..], c)) + RemoveChar(b, c);
      }
    } else {
      assert a + b == b;
    }
  }

  /** A string without `c` is left as it is. */
  lemma {:induction false} RemoveCharAbsent(s: string, c: char)
    requires c !in s
    ensures RemoveChar(s, c) == s
  {
    if s != [] {
      RemoveCharAbsent(s[1..], c);
    }
  }

  /** The index of the first `c` in `s`: `s.index(c)`. */
  function IndexOf(s: string, c: char): (i: nat)
    requires c in s
    ensures i < |s| && s[i] == c && c !in s[..i]
  {
    if s[0] == c then 0
    else
      var i := IndexOf(s[1..], c);
      assert s[..i + 1] == [s[0]] + s[1..][..i];
      i + 1
  }

  /** `s.split(sep)` for a one-character separator: the pieces between the
      separators, one more piece than there are separators. */
  function Split(s: string, sep: char): (parts: seq<string>)
    ensures |parts| == multiset(s)[sep] + 1
    ensures forall k :: 0 <= k < |parts| ==> sep !in parts[k]
    decreases |s|
  {
    if sep !in s then
      assert multiset(s)[sep] == 0;
      [s]
    else
      var i := IndexOf(s, sep);
      assert s == s[..i] + [sep] + s[i + 1..];
      assert multiset(s[..i])[sep] == 0;
      [s[..i]] + Split(s[i + 1..], sep)
  }

  /** `sep.join(parts)` */
  function Join(sep: char, parts: seq<string>): string {
    if parts == [] then ""
    else if |parts| == 1 then parts[0]
    else parts[0] + [sep] + Join(sep, parts[1..])
  }

  /** `"".join(parts)` */
  function Concat(parts: seq<string>): string {
    if parts == [] then "" else parts[0] + Concat(parts[1..])
  }

  /** Joining the pieces with the separator restores the string. */
  lemma {:induction false} JoinSplit(s: string, sep: char)
    ensures Join(sep, Split(s, sep)) == s
    decreases |s|
  {
    if sep in s {
      var i := IndexOf(s, sep);
      JoinSplit(s[i + 1..], sep);
      assert s == s[..i] + [sep] + s[i + 1..];
    }
  }

  /** Deleting every separator is joining the pieces with nothing between them. */
  lemma {:induction false} RemoveCharIsConcatOfSplit(s: string, c: char)
    ensures RemoveChar(s, c) == Concat(Split(s, c))
    decreases |s|
  {
    if c !in s {
      RemoveCharAbsent(s, c);
    } else {
      var i := IndexOf(s, c);
      var rest := s[i + 1..];
      assert s == s[..i] + ([c] + rest);
      calc {
        RemoveChar(s, c);
        { RemoveCharAppend(s[..i], [c] + rest, c); }
        RemoveChar(s[..i], c) + RemoveChar([c] + rest, c);
        { RemoveCharAbsent(s[..i], c); }
        s[..i] + RemoveChar([c] + rest, c);
        { assert ([c] + rest)[1..] == rest; }
        s[..i] + RemoveChar(rest, c);
        { RemoveCharIsConcatOfSplit(rest, c); }
        s[..i] + Concat(Split(rest, c));
        { assert Split(s, c) == [s[..i]] + Split(rest, c); }
        Concat(Split(s, c));
      }
    }
  }
}
