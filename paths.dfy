/**
 * The POSIX path operations the configuration module uses:
 * `os.path.join` for its fixed locations and `os.path.dirname` for the
 * folder of the loaded file. Only the separator `/` is considered.
 */
module Paths {

  const Sep: char := '/'

  ghost predicate SepFree(s: string)
  {
    forall k :: 0 <= k < |s| ==> s[k] != Sep
  }

  predicate AllSep(s: string)
  {
    forall k :: 0 <= k < |s| ==> s[k] == Sep
  }

  /** `os.path.join(a, b)`: an absolute `b` replaces `a`; otherwise one separator joins them. */
  function Join(a: string, b: string): (r: string)
    ensures |b| > 0 && b[0] == Sep ==> r == b
    ensures !(|b| > 0 && b[0] == Sep) ==>
              |a| <= |r| - |b| <= |a| + 1 && r[..|a|] == a && r[|r| - |b|..] == b
    ensures !(|b| > 0 && b[0] == Sep) && |a| > 0 && a[|a| - 1] != Sep ==> r == a + [Sep] + b
    ensures !(|b| > 0 && b[0] == Sep) && (|a| == 0 || a[|a| - 1] == Sep) ==> r == a + b
  {
    if |b| > 0 && b[0] == Sep then b
    else if |a| == 0 || a[|a| - 1] == Sep then a + b
    else a + [Sep] + b
  }

  /** `p.rfind('/') + 1`: where the last component starts. */
  function BaseStart(p: string): (i: nat)
    ensures i <= |p|
    ensures SepFree(p[i..])
    ensures i > 0 ==> p[i - 1] == Sep
    decreases |p|
  {
    if |p| == 0 then 0
    else if p[|p| - 1] == Sep then |p|
    else
      var i := BaseStart(p[..|p| - 1]);
      assert p[i..] == p[..|p| - 1][i..] + [p[|p| - 1]];
      i
  }

  /** `s.rstrip('/')`. */
  function RStripSep(s: string): (r: string)
    ensures |r| <= |s| && r == s[..|r|]
    ensures AllSep(s[|r|..])
    ensures |r| == 0 || r[|r| - 1] != Sep
    decreases |s|
  {
    if |s| > 0 && s[|s| - 1] == Sep then
      var r := RStripSep(s[..|s| - 1]);
      assert s[|r|..] == s[..|s| - 1][|r|..] + [Sep];
      r
    else s
  }

  /**
   * `os.path.dirname(p)`: everything before the last component, with trailing
   * separators removed unless that part consists of separators only.
   */
  function Dirname(p: string): (r: string)
  {
    var head := p[..BaseStart(p)];
    if |head| > 0 && !AllSep(head) then RStripSep(head) else head
  }

  /**
   * The directory part is a prefix; what follows is separators, then a
   * component without any; trailing separators are gone unless it is all separators.
   */
  lemma DirnameShape(p: string)
    ensures var r := Dirname(p);
            && |r| <= BaseStart(p) && r == p[..|r|]
            && AllSep(p[|r|..BaseStart(p)])
            && SepFree(p[BaseStart(p)..])
            && (|r| > 0 && !AllSep(r) ==> r[|r| - 1] != Sep)
  {
  }

  /** A path without any separator has an empty directory part. */
  lemma DirnameOfBareName(p: string)
    requires SepFree(p)
    ensures Dirname(p) == ""
  {
  }

  /** Appending separator-free text does not move the start of the last component back. */
  lemma {:induction false} BaseStartSepFreeSuffix(a: string, n: string)
    requires SepFree(n)
    ensures BaseStart(a + n) == if |n| == 0 then BaseStart(a) else BaseStart(a + n[..|n| - 1])
    decreases |n|
  {
    if |n| == 0 {
      assert a + n == a;
    } else {
      assert (a + n)[..|a + n| - 1] == a + n[..|n| - 1];
    }
  }

  lemma {:induction false} BaseStartOfFile(a: string, n: string)
    requires SepFree(n)
    ensures BaseStart(a + n) == BaseStart(a)
    decreases |n|
  {
    BaseStartSepFreeSuffix(a, n);
    if |n| > 0 {
      assert SepFree(n[..|n| - 1]);
      BaseStartOfFile(a, n[..|n| - 1]);
    }
  }

  /** The folder of `folder/name`, for a folder not ending in a separator, is that folder. */
  lemma DirnameOfChild(folder: string, name: string)
    requires |folder| > 0 && folder[|folder| - 1] != Sep
    requires SepFree(name)
    ensures Dirname(folder + [Sep] + name) == folder
  {
    var p := folder + [Sep] + name;
    BaseStartOfFile(folder + [Sep], name);
    var head := p[..BaseStart(p)];
    assert head == folder + [Sep];
    assert head[|head| - 2] == folder[|folder| - 1];
    assert head[..|head| - 1] == folder;
  }
}
