/**
 * Quality variants reported by the upstream stream directory, and the choice
 * of the variant a relay is built from: the first variant with the lowest
 * bitrate, provided that bitrate does not exceed a fixed ceiling.
 */
module Variants {
  import opened Wrappers

  /** One quality variant of a live stream: playback path, auth token,
      connection endpoint and bitrate. The bitrate is only ever compared,
      so it is a `real` here. */
  datatype QualityType = QualityType(play: string, token: string, connect: string, bitrate: real)

  /** The value the scan starts from; a variant at or above it is never chosen. */
  const InitialLowest: real := 100000.0

  /** Streams whose lowest bitrate is above this are not relayed. */
  const BitrateCeiling: real := 5000.0

  /** The zero value the scan holds before any variant is chosen. */
  const NoQuality := QualityType("", "", "", 0.0)

  /** What the upstream request produced. `Fetched` carries whatever the JSON
      decoder left in the result slice: the decoder's error is ignored, so a
      body that does not decode arrives here as an empty (or partial) list. */
  datatype Upstream = FetchFailed | Fetched(variants: seq<QualityType>)

  /** State of the lowest-bitrate scan: the lowest bitrate seen so far and the
      variant that carried it. */
  datatype Scan = Scan(lowest: real, chosen: QualityType)

  /** `i` is the first position holding the minimum bitrate of `vs`. */
  ghost predicate IsFirstMinimum(vs: seq<QualityType>, i: int)
  {
    && 0 <= i < |vs|
    && (forall j :: 0 <= j < |vs| ==> vs[i].bitrate <= vs[j].bitrate)
    && (forall j :: 0 <= j < i ==> vs[i].bitrate < vs[j].bitrate)
  }

  /** The scan state `r` holds the variant at position `i`, and every variant
      before it has a strictly higher bitrate. */
  ghost predicate ChosenAt(vs: seq<QualityType>, i: int, r: Scan)
  {
    && 0 <= i < |vs|
    && r.chosen == vs[i]
    && r.lowest == vs[i].bitrate
    && (forall j :: 0 <= j < i ==> r.lowest < vs[j].bitrate)
  }

  /** The scan over `vs`, left to right, starting from `low` and `chosen`:
      a variant replaces the current choice only if its bitrate is strictly
      lower. The result is never above the start value nor above any variant,
      and it either keeps the start state or is the first variant holding the
      minimum, which then lies strictly below the start value. */
  function ScanFrom(vs: seq<QualityType>, low: real, chosen: QualityType): (r: Scan)
    ensures r.lowest <= low
    ensures forall j :: 0 <= j < |vs| ==> r.lowest <= vs[j].bitrate
    ensures r.lowest == low ==> r.chosen == chosen
    ensures r.lowest < low ==> exists i :: ChosenAt(vs, i, r)
    decreases |vs|
  {
    if |vs| == 0 then Scan(low, chosen)
    else
      var r := if vs[0].bitrate < low
               then ScanFrom(vs[1..], vs[0].bitrate, vs[0])
               else ScanFrom(vs[1..], low, chosen);
      assert r.lowest < low ==> exists i :: ChosenAt(vs, i, r) by {
        if r.lowest < low {
          if vs[0].bitrate < low && r.lowest == vs[0].bitrate {
            assert ChosenAt(vs, 0, r);
          } else {
            var i :| ChosenAt(vs[1..], i, r);
            assert r.lowest < vs[0].bitrate;
            assert forall j :: 0 <= j < i + 1 ==> r.lowest < vs[j].bitrate by {
              forall j | 0 <= j < i + 1 ensures r.lowest < vs[j].bitrate {
                if j > 0 { assert vs[j] == vs[1..][j - 1]; }
              }
            }
            assert vs[i + 1] == vs[1..][i];
            assert ChosenAt(vs, i + 1, r);
          }
        }
      }
      r
  }

  /** The variant a relay is built from: the first one with the lowest
      bitrate, or `None` when the list is empty or every variant is above the
      ceiling. A minimum of exactly the ceiling is accepted. */
  function Select(vs: seq<QualityType>): (r: Option<QualityType>)
    ensures r.None? <==> forall j :: 0 <= j < |vs| ==> vs[j].bitrate > BitrateCeiling
    ensures r.Some? ==> r.value.bitrate <= BitrateCeiling
    ensures r.Some? ==> exists i :: IsFirstMinimum(vs, i) && r.value == vs[i]
  {
    var s := ScanFrom(vs, InitialLowest, NoQuality);
    if s.lowest > BitrateCeiling then None else Some(s.chosen)
  }

  /** The whole lookup against the upstream directory: a failed request or
      an unreadable body yields `None`; otherwise the selection decides. */
  function GetStreamData(up: Upstream): (r: Option<QualityType>)
    ensures up.FetchFailed? ==> r.None?
    ensures up.Fetched? && |up.variants| == 0 ==> r.None?
    ensures r.Some? ==> up.Fetched? && r.value in up.variants && r.value.bitrate <= BitrateCeiling
    ensures r.Some? ==> forall v :: v in up.variants ==> r.value.bitrate <= v.bitrate
    ensures r.Some? ==> exists i :: IsFirstMinimum(up.variants, i) && r.value == up.variants[i]
    ensures up.Fetched? && (exists v :: v in up.variants && v.bitrate <= BitrateCeiling) ==> r.Some?
  {
    match up
    case FetchFailed => None
    case Fetched(vs) => Select(vs)
  }

  /** A list of variants that are all above the ceiling yields no source. */
  lemma AllAboveCeilingExample()
    ensures Select([QualityType("a", "t", "c", 6000.0), QualityType("b", "t", "c", 8000.0)]) == None
  {
  }

  /** The lowest of three variants is chosen, wherever it sits. */
  lemma LowestOfThreeExample()
    ensures Select([QualityType("a", "t", "c", 4000.0), QualityType("b", "t", "c", 2000.0),
                    QualityType("c", "t", "c", 4999.0)])
            == Some(QualityType("b", "t", "c", 2000.0))
  {
    var vs := [QualityType("a", "t", "c", 4000.0), QualityType("b", "t", "c", 2000.0),
               QualityType("c", "t", "c", 4999.0)];
    var r := Select(vs);
    var i :| IsFirstMinimum(vs, i) && r.value == vs[i];
    assert vs[i].bitrate <= vs[1].bitrate;
  }

  /** Ties go to the earliest variant, since only a strictly lower bitrate
      replaces the current choice. */
  lemma TieKeepsFirstExample()
    ensures Select([QualityType("a", "t", "c", 3000.0), QualityType("b", "t", "c", 3000.0)])
            == Some(QualityType("a", "t", "c", 3000.0))
  {
    var vs := [QualityType("a", "t", "c", 3000.0), QualityType("b", "t", "c", 3000.0)];
    var r := Select(vs);
    var i :| IsFirstMinimum(vs, i) && r.value == vs[i];
    assert i == 0;
  }
}
