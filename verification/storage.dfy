/**
 * The line format of the program list file: `save_programs` writes every
 * path followed by a newline, `load_programs` reads the lines back and
 * strips each one.
 */
module Storage {
  import opened Text

  /** The text `save_programs` writes for the list `xs`. */
  function Encode(xs: seq<string>): (t: string)
    ensures t == [] <==> xs == []
    ensures t != [] ==> t[|t| - 1] == '\n'
    ensures |t| >= |xs|
  {
    if xs == [] then [] else xs[0] + "\n" + Encode(xs[1..])
  }

  /** Concatenation of a list of lines. */
  function Flatten(ls: seq<string>): string {
    if ls == [] then [] else ls[0] + Flatten(ls[1..])
  }

  /** A line as `readlines` returns it: non-empty, a newline at most at its end. */
  predicate IsLine(l: string) {
    l != [] && forall k :: 0 <= k < |l| - 1 ==> l[k] != '\n'
  }

  /** Length of the first line of `t`, its terminating newline included. */
  function LineLength(t: string): (n: nat)
    requires t != []
    ensures 1 <= n <= |t|
    ensures forall k :: 0 <= k < n - 1 ==> t[k] != '\n'
    ensures n < |t| ==> t[n - 1] == '\n'
    decreases |t|
  {
    if t[0] == '\n' || |t| == 1 then 1 else 1 + LineLength(t[1..])
  }

  /**
   * `readlines`: the text cut after every newline, each piece keeping its
   * newline; a final piece without one is kept as well.
   */
  function ReadLines(t: string): (ls: seq<string>)
    ensures Flatten(ls) == t
    ensures forall i :: 0 <= i < |ls| ==> IsLine(ls[i])
    ensures forall i :: 0 <= i < |ls| - 1 ==> ls[i] != [] && ls[i][|ls[i]| - 1] == '\n'
    decreases |t|
  {
    if t == [] then []
    else
      var n := LineLength(t);
      assert t == t[..n] + t[n..];
      [t[..n]] + ReadLines(t[n..])
  }

  /** `[f(l) for l in ls]`: `f` applied to every line, in order. */
  function MapLines(f: string -> string, ls: seq<string>): (xs: seq<string>)
    ensures |xs| == |ls|
    ensures forall i :: 0 <= i < |xs| ==> xs[i] == f(ls[i])
  {
    if ls == [] then []
    else
      assert forall i :: 1 <= i < |ls| ==> ls[1..][i - 1] == ls[i];
      [f(ls[0])] + MapLines(f, ls[1..])
  }

  /** Every line read, stripped. */
  function StripAll(ls: seq<string>): (xs: seq<string>)
    ensures |xs| == |ls|
    ensures forall i :: 0 <= i < |xs| ==> xs[i] == Strip(ls[i])
  {
    MapLines(Strip, ls)
  }

  /** A path the file format carries unchanged: no newline, no whitespace at either end. */
  predicate Storable(x: string) {
    Stripped(x) && '\n' !in x
  }

  /** The list `load_programs` returns for the file text `t`. */
  function Decode(t: string): (xs: seq<string>)
    ensures |xs| == |ReadLines(t)|
    ensures forall i :: 0 <= i < |xs| ==> Storable(xs[i])
  {
    var ls := ReadLines(t);
    var xs := StripAll(ls);
    forall i | 0 <= i < |xs|
      ensures Storable(xs[i])
    {
      StripLineHasNoNewline(ls[i]);
    }
    xs
  }

  /** Stripping a line removes its newline: what is left has none. */
  lemma StripLineHasNoNewline(l: string)
    requires IsLine(l)
    ensures '\n' !in Strip(l)
  {
    StripTrims(l);
    TrimmedLineHasNoNewline(l, Strip(l), |l| - |StripLeft(l)|);
  }

  /** A stripped infix of a line, with whitespace all around it, holds no newline. */
  lemma TrimmedLineHasNoNewline(l: string, r: string, m: nat)
    requires IsLine(l) && Stripped(r) && TrimmedAt(l, r, m)
    ensures '\n' !in r
  {
    forall k | 0 <= k < |r|
      ensures r[k] != '\n'
    {
      assert r[k] == l[m + k];
      if m + k == |l| - 1 {
        assert k == |r| - 1;
      }
    }
  }

  /** The first line of `x + "\n" + rest` is `x` with its newline. */
  lemma ReadLinesCons(x: string, rest: string)
    requires '\n' !in x
    ensures ReadLines(x + "\n" + rest) == [x + "\n"] + ReadLines(rest)
  {
    var t := x + "\n" + rest;
    var n := LineLength(t);
    assert t[|x|] == '\n';
    assert n == |x| + 1 by {
      assert forall k :: 0 <= k < |x| ==> t[k] == x[k];
    }
    assert t[..n] == x + "\n";
    assert t[n..] == rest;
  }

  /** Stripping a list of lines one at a time. */
  lemma StripAllCons(l: string, ls: seq<string>)
    ensures StripAll([l] + ls) == [Strip(l)] + StripAll(ls)
  {
    assert ([l] + ls)[1..] == ls;
  }

  /** One storable path in front of a list that round-trips still round-trips. */
  lemma DecodeEncodeCons(x: string, ys: seq<string>)
    requires Storable(x) && Decode(Encode(ys)) == ys
    ensures Decode(Encode([x] + ys)) == [x] + ys
  {
    var rest := Encode(ys);
    assert ([x] + ys)[1..] == ys;
    calc {
      Decode(Encode([x] + ys));
      StripAll(ReadLines(x + "\n" + rest));
      { ReadLinesCons(x, rest); }
      StripAll([x + "\n"] + ReadLines(rest));
      { StripAllCons(x + "\n", ReadLines(rest)); }
      [Strip(x + "\n")] + StripAll(ReadLines(rest));
      { StripLine(x); }
      [x] + ys;
    }
  }

  /**
   * Loading what was saved gives back the same list, in the same order,
   * for every list of storable paths.
   */
  lemma {:induction false} DecodeEncode(xs: seq<string>)
    requires forall i :: 0 <= i < |xs| ==> Storable(xs[i])
    ensures Decode(Encode(xs)) == xs
  {
    if xs == [] {
      assert ReadLines(Encode(xs)) == [];
    } else {
      DecodeEncode(xs[1..]);
      DecodeEncodeCons(xs[0], xs[1..]);
      assert [xs[0]] + xs[1..] == xs;
    }
  }

  /** Saving a loaded list and loading it again changes nothing. */
  lemma LoadSaveLoad(t: string)
    ensures Decode(Encode(Decode(t))) == Decode(t)
  {
    DecodeEncode(Decode(t));
  }
}
