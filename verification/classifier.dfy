/** The reasoning flag (`isInsideThinkingBlock`) and how one non-empty
    delta moves it. The whole raw delta is classified at once: the
    position of a marker inside the delta does not matter, only whether
    `<think>` or `</think>` occurs in it. The open check runs before the
    close check, so a delta holding both markers, in either order, ends
    outside a block. */
module Classifier {
  import opened Text
  import opened Markers

  /** What one non-empty delta does: whether it counts as reasoning,
      whether it starts a block (open marker while outside), whether it
      ends one (close marker while inside, after the open check), and the
      flag afterwards. */
  datatype Verdict = Verdict(thinking: bool, starts: bool, ends: bool, insideAfter: bool)

  function Classify(inside: bool, raw: string): (v: Verdict)
    ensures v.thinking <==> inside || Contains(raw, Open)
    ensures v.starts <==> !inside && v.thinking
    ensures v.ends <==> v.thinking && Contains(raw, Close)
    ensures v.insideAfter <==> v.thinking && !Contains(raw, Close)
    ensures v.ends ==> !v.insideAfter
  {
    var opens := Contains(raw, Open);
    var insideOpened := inside || opens;
    var closes := Contains(raw, Close);
    Verdict(
      thinking := insideOpened,
      starts := opens && !inside,
      ends := closes && insideOpened,
      insideAfter := if closes then false else insideOpened)
  }

  /** The flag after a run of raw deltas, one `Classify` at a time. */
  function FlagAfter(inside: bool, raws: seq<string>): bool
    decreases |raws|
  {
    if raws == [] then inside
    else FlagAfter(Classify(inside, raws[0]).insideAfter, raws[1..])
  }

  /** Reference reading of the flag: look back for the last delta that
      holds a marker; outside if it holds `</think>`, inside if it holds
      only `<think>`; the initial flag when no delta holds a marker. */
  function LastMarkerFlag(inside: bool, raws: seq<string>): bool
    decreases |raws|
  {
    if raws == [] then inside
    else
      var last := raws[|raws| - 1];
      if Contains(last, Close) then false
      else if Contains(last, Open) then true
      else LastMarkerFlag(inside, raws[..|raws| - 1])
  }

  lemma {:induction false} FlagAfterSnoc(inside: bool, raws: seq<string>, raw: string)
    ensures FlagAfter(inside, raws + [raw]) == Classify(FlagAfter(inside, raws), raw).insideAfter
    decreases |raws|
  {
    if raws != [] {
      assert (raws + [raw])[1..] == raws[1..] + [raw];
      FlagAfterSnoc(Classify(inside, raws[0]).insideAfter, raws[1..], raw);
    }
  }

  /** The flag the decoder carries after any run of deltas is the one the
      last marker-bearing delta decides. */
  lemma {:induction false} FlagTracksLastMarker(inside: bool, raws: seq<string>)
    ensures FlagAfter(inside, raws) == LastMarkerFlag(inside, raws)
    decreases |raws|
  {
    if raws != [] {
      var init := raws[..|raws| - 1];
      var last := raws[|raws| - 1];
      assert raws == init + [last];
      FlagAfterSnoc(inside, init, last);
      FlagTracksLastMarker(inside, init);
    }
  }
}
