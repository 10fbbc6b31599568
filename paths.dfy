/** File-name helpers used by the player: the last path element, the
    extension, and the gate that decides which files can be loaded as tracks.
    Paths use '/' as the only separator. */
module Paths {

  /** The formats the decoder accepts, without the leading dot. */
  const SupportedFormats: seq<string> := ["mp3"]

  predicate IsSuffix(s: string, p: string) {
    |s| <= |p| && s == p[|p| - |s|..]
  }

  /** The final element of a path: everything after the last '/'. */
  function Base(p: string): string {
    if p == [] || p[|p| - 1] == '/' then []
    else Base(p[..|p| - 1]) + [p[|p| - 1]]
  }

  /** The extension of a path: the suffix starting at the last '.' of the
      final element, or empty when the final element has no '.'. */
  function Ext(p: string): string {
    if p == [] || p[|p| - 1] == '/' then []
    else if p[|p| - 1] == '.' then "."
    else
      var e := Ext(p[..|p| - 1]);
      if e == [] then [] else e + [p[|p| - 1]]
  }

  /** Base(p) is the suffix of p that holds no '/' and follows the last '/'. */
  lemma {:induction false} BaseIsLastElement(p: string)
    ensures IsSuffix(Base(p), p)
    ensures forall k :: 0 <= k < |Base(p)| ==> Base(p)[k] != '/'
    ensures |Base(p)| < |p| ==> p[|p| - |Base(p)| - 1] == '/'
  {
    if p != [] && p[|p| - 1] != '/' {
      BaseIsLastElement(p[..|p| - 1]);
    }
  }

  /** Ext(p) is the part of the final element from its last '.' on, and is
      empty exactly when the final element holds no '.'. */
  lemma {:induction false} ExtIsLastDotSuffix(p: string)
    ensures IsSuffix(Ext(p), Base(p))
    ensures Ext(p) != [] ==> Ext(p)[0] == '.' && '.' !in Ext(p)[1..]
    ensures Ext(p) == [] <==> '.' !in Base(p)
  {
    if p != [] && p[|p| - 1] != '/' {
      var q := p[..|p| - 1];
      ExtIsLastDotSuffix(q);
      if p[|p| - 1] != '.' && Ext(q) != [] {
        assert Ext(p)[1..] == Ext(q)[1..] + [p[|p| - 1]];
      }
    }
  }

  /** The extension without its leading dot. */
  function Format(p: string): (f: string)
    ensures Ext(p) != [] ==> Ext(p) == "." + f
    ensures Ext(p) == [] ==> f == []
  {
    ExtIsLastDotSuffix(p);
    var e := Ext(p);
    if e != [] then e[1..] else []
  }

  predicate IsSupported(p: string) {
    Format(p) in SupportedFormats
  }

  /** A file passes the format gate exactly when its name ends in ".mp3". */
  lemma {:induction false} SupportedIffMp3Suffix(p: string)
    ensures IsSupported(p) <==> IsSuffix(".mp3", p)
  {
    if IsSuffix(".mp3", p) {
      ExtOfDotSuffix(p, |p| - 4);
    }
    if IsSupported(p) {
      SupportedHasMp3Suffix(p);
    }
  }

  lemma {:induction false} SupportedHasMp3Suffix(p: string)
    requires IsSupported(p)
    ensures IsSuffix(".mp3", p)
  {
    var e, b := Ext(p), Base(p);
    assert Format(p) == "mp3";
    assert e == ".mp3";
    ExtIsLastDotSuffix(p);
    assert IsSuffix(e, b);
    BaseIsLastElement(p);
    assert IsSuffix(b, p);
    SuffixTransitive(e, b, p);
  }

  lemma {:induction false} SuffixTransitive(a: string, b: string, c: string)
    requires IsSuffix(a, b) && IsSuffix(b, c)
    ensures IsSuffix(a, c)
  {
  }

  /** When p[i] is a '.' and no '.' or '/' follows it, the extension starts at i. */
  lemma {:induction false} ExtOfDotSuffix(p: string, i: nat)
    requires i < |p| && p[i] == '.'
    requires forall k :: i < k < |p| ==> p[k] != '.' && p[k] != '/'
    ensures Ext(p) == p[i..]
    decreases |p|
  {
    if i < |p| - 1 {
      var q := p[..|p| - 1];
      ExtOfDotSuffix(q, i);
      assert q[i..] + [p[|p| - 1]] == p[i..];
    }
  }
}
