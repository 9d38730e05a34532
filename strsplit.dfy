/**
 * Python's `str.split(sep)` with an explicit one-character separator, and its
 * inverse `sep.join(parts)`. Splitting never drops empty pieces:
 * `"a//b"` gives `["a", "", "b"]` and `""` gives `[""]`.
 */
module StrSplit {

  /** `s.split(sep)`: the maximal separator-free pieces of `s`, in order. */
  function Split(s: string, sep: char): (parts: seq<string>)
    ensures |parts| >= 1
    decreases |s|
  {
    if |s| == 0 then [""]
    else
      var rest := Split(s[1..], sep);
      if s[0] == sep then [""] + rest
      else [[s[0]] + rest[0]] + rest[1..]
  }

  /** `sep.join(parts)`. */
  function Join(parts: seq<string>, sep: char): string
    requires |parts| >= 1
    decreases |parts|
  {
    if |parts| == 1 then parts[0] else parts[0] + [sep] + Join(parts[1..], sep)
  }

  /** Number of occurrences of `c` in `s`. */
  function Count(s: string, c: char): nat
    decreases |s|
  {
    if |s| == 0 then 0 else (if s[0] == c then 1 else 0) + Count(s[1..], c)
  }

  ghost predicate SepFree(s: string, sep: char)
  {
    forall k :: 0 <= k < |s| ==> s[k] != sep
  }

  /** Joining the pieces with the separator gives back the original string. */
  lemma {:induction false} JoinSplit(s: string, sep: char)
    ensures Join(Split(s, sep), sep) == s
    decreases |s|
  {
    if |s| > 0 {
      var rest := Split(s[1..], sep);
      JoinSplit(s[1..], sep);
      if s[0] == sep {
        assert Split(s, sep) == [""] + rest;
        assert ([""] + rest)[1..] == rest;
      } else {
        var parts := Split(s, sep);
        assert parts[1..] == rest[1..];
        if |rest| == 1 {
          assert parts == [[s[0]] + rest[0]];
        } else {
          assert Join(rest, sep) == rest[0] + [sep] + Join(rest[1..], sep);
        }
      }
    }
  }

  /** No piece contains the separator. */
  lemma {:induction false} SplitPiecesSepFree(s: string, sep: char)
    ensures forall i :: 0 <= i < |Split(s, sep)| ==> SepFree(Split(s, sep)[i], sep)
    decreases |s|
  {
    if |s| > 0 {
      SplitPiecesSepFree(s[1..], sep);
      var rest := Split(s[1..], sep);
      assert SepFree(rest[0], sep);
      if s[0] != sep {
        var head := [s[0]] + rest[0];
        forall k | 0 <= k < |head| ensures head[k] != sep {
          if k > 0 { assert head[k] == rest[0][k - 1]; }
        }
      }
    }
  }

  /** There is one piece more than there are separators. */
  lemma {:induction false} SplitLength(s: string, sep: char)
    ensures |Split(s, sep)| == Count(s, sep) + 1
    decreases |s|
  {
    if |s| > 0 { SplitLength(s[1..], sep); }
  }

  /** Prepending a separator-free string extends the first piece. */
  lemma {:induction false} SplitSepFreePrefix(a: string, t: string, sep: char)
    requires SepFree(a, sep)
    ensures Split(a + t, sep) == [a + Split(t, sep)[0]] + Split(t, sep)[1..]
    decreases |a|
  {
    var p := Split(t, sep);
    if |a| == 0 {
      assert a + t == t && a + p[0] == p[0];
      assert [p[0]] + p[1..] == p;
    } else {
      var s := a + t;
      assert s[0] == a[0] && s[0] != sep;
      assert s[1..] == a[1..] + t;
      SplitSepFreePrefix(a[1..], t, sep);
      var rest := Split(s[1..], sep);
      assert rest == [a[1..] + p[0]] + p[1..];
      assert Split(s, sep) == [[s[0]] + rest[0]] + rest[1..];
      assert [a[0]] + (a[1..] + p[0]) == a + p[0];
    }
  }

  /** Splitting a join of separator-free pieces gives back the pieces. */
  lemma {:induction false} SplitJoin(parts: seq<string>, sep: char)
    requires |parts| >= 1
    requires forall i :: 0 <= i < |parts| ==> SepFree(parts[i], sep)
    ensures Split(Join(parts, sep), sep) == parts
    decreases |parts|
  {
    if |parts| == 1 {
      SplitSepFreePrefix(parts[0], "", sep);
      assert parts[0] + "" == parts[0];
    } else {
      var tail := Join(parts[1..], sep);
      SplitJoin(parts[1..], sep);
      assert parts[0] + [sep] + tail == parts[0] + ([sep] + tail);
      SplitSepFreePrefix(parts[0], [sep] + tail, sep);
      assert ([sep] + tail)[1..] == tail;
      assert Split([sep] + tail, sep) == [""] + parts[1..];
      assert Split(Join(parts, sep), sep) == [parts[0] + ""] + parts[1..];
      assert parts[0] + "" == parts[0];
      assert [parts[0]] + parts[1..] == parts;
    }
  }

  /** The two edge cases Python documents: empty pieces are kept. */
  lemma SplitEdgeCases()
    ensures Split("", '/') == [""]
    ensures Split("a//b", '/') == ["a", "", "b"]
  {
    var parts := ["a", "", "b"];
    assert forall i :: 0 <= i < |parts| ==> SepFree(parts[i], '/');
    assert Join(parts, '/') == "a//b";
    SplitJoin(parts, '/');
  }
}
