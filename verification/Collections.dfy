/** Optional values, multiples, and the array operations of the modelled code: findIndex and slice. */
module Collections {

  datatype Option<+T> = None | Some(value: T)

  datatype Result<+T, +E> = Ok(value: T) | Err(error: E)

  function Min(a: int, b: int): int {
    if a <= b then a else b
  }

  function Max(a: int, b: int): int {
    if a >= b then a else b
  }

  lemma {:induction false} Multiples(a: nat, b: nat, w: nat)
    ensures a <= b ==> a * w <= b * w
    ensures b == a + 1 ==> b * w == a * w + w
    ensures b >= a + 1 ==> b * w >= a * w + w
    ensures b >= a + 2 ==> b * w >= a * w + 2 * w
  {
    if b >= a {
      var d: nat := b - a;
      assert b * w == a * w + d * w;
      if d >= 1 {
        assert d * w == w + (d - 1) * w;
      }
      if d >= 2 {
        assert d * w == 2 * w + (d - 2) * w;
      }
    }
  }

  /** `Array.prototype.findIndex`: the first index whose element satisfies `p`, or -1. */
  function FindIndex<T>(s: seq<T>, p: T -> bool): (r: int)
    ensures -1 <= r < |s|
    ensures r >= 0 ==> p(s[r]) && forall j :: 0 <= j < r ==> !p(s[j])
    ensures r == -1 ==> forall j :: 0 <= j < |s| ==> !p(s[j])
  {
    if s == [] then -1
    else if p(s[0]) then 0
    else
      var rest := FindIndex(s[1..], p);
      assert forall j :: 0 <= j < |s| - 1 ==> s[1..][j] == s[j + 1];
      assert rest == -1 ==> forall j :: 1 <= j < |s| ==> s[j] == s[1..][j - 1];
      assert rest >= 0 ==> forall j :: 1 <= j < rest + 1 ==> s[j] == s[1..][j - 1];
      if rest < 0 then -1 else rest + 1
  }

  /** `part` is the stretch of `whole` that starts at `from`. */
  ghost predicate IsStretch<T>(part: seq<T>, whole: seq<T>, from: nat) {
    from + |part| <= |whole| && forall i :: 0 <= i < |part| ==> part[i] == whole[from + i]
  }

  /** `s.slice(from, to)` for non-negative bounds, which JavaScript clips to the length. */
  function Slice<T>(s: seq<T>, from: nat, to: nat): (r: seq<T>)
    requires from <= to
    ensures |r| == Min(to, |s|) - Min(from, |s|)
    ensures IsStretch(r, s, Min(from, |s|))
  {
    s[Min(from, |s|)..Min(to, |s|)]
  }

  lemma {:induction false} StretchOfStretch<T>(part: seq<T>, whole: seq<T>, from: nat, i: nat, j: nat)
    requires IsStretch(part, whole, from) && i <= j <= |part|
    ensures IsStretch(part[i..j], whole, from + i)
  {
  }

  lemma {:induction false} StretchTransitive<T>(a: seq<T>, b: seq<T>, c: seq<T>, i: nat, j: nat)
    requires IsStretch(a, b, i) && IsStretch(b, c, j)
    ensures IsStretch(a, c, j + i)
  {
  }

  lemma {:induction false} SuffixIsStretch<T>(s: seq<T>, from: nat)
    requires from <= |s|
    ensures IsStretch(s[from..], s, from)
  {
  }

  lemma {:induction false} AdjacentStretches<T>(a: seq<T>, b: seq<T>, whole: seq<T>, from: nat)
    requires IsStretch(a, whole, from) && IsStretch(b, whole, from + |a|)
    ensures IsStretch(a + b, whole, from)
  {
  }

  lemma {:induction false} UpdateBehind<T>(head: T, tail: seq<T>, i: nat, value: T)
    requires i < |tail|
    ensures ([head] + tail)[i + 1 := value] == [head] + tail[i := value]
  {
  }

  predicate Distinct<T(==)>(s: seq<T>) {
    forall i, j :: 0 <= i < j < |s| ==> s[i] != s[j]
  }

  // ---- parts of a list that keep its order ----

  /** `part` is what `whole` has at the increasing `places`. */
  ghost predicate ArePlaces<T>(places: seq<nat>, part: seq<T>, whole: seq<T>) {
    && |places| == |part|
    && (forall i :: 0 <= i < |places| ==> places[i] < |whole| && whole[places[i]] == part[i])
    && (forall i, j :: 0 <= i < j < |places| ==> places[i] < places[j])
  }

  function Shifted(places: seq<nat>): (r: seq<nat>)
    ensures |r| == |places| && forall i :: 0 <= i < |r| ==> r[i] == places[i] + 1
  {
    if places == [] then [] else [places[0] + 1] + Shifted(places[1..])
  }

  lemma {:induction false} NoPlaces<T>()
    ensures ArePlaces<T>([], [], [])
  {
  }

  lemma {:induction false} PlacesBehindHead<T>(places: seq<nat>, part: seq<T>, whole: seq<T>)
    requires whole != [] && ArePlaces(places, part, whole[1..])
    ensures ArePlaces(Shifted(places), part, whole) && ArePlaces([0] + Shifted(places), [whole[0]] + part, whole)
  {
    hide Shifted;
    var shifted := Shifted(places);
    assert forall i :: 0 <= i < |shifted| ==> whole[shifted[i]] == whole[1..][places[i]];
  }
}
