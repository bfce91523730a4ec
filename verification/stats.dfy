/** The statistics record of one response and the way a delta updates it.
    Timestamps are milliseconds, with 0 meaning "not set"; counters count
    deltas (one delta is one token unit). */
module SessionStats {
  import opened Text
  import opened Classifier

  datatype Stats = Stats(
    startTime: int,
    firstTokenTime: int,
    firstResponseTokenTime: int,
    endTime: int,
    thinkingStartTime: int,
    thinkingEndTime: int,
    totalTokens: nat,
    thinkingTokens: nat,
    responseTokens: nat,
    stopReason: string)

  /** The record as created when the upstream stream starts at `start`:
      nothing counted, every other timestamp unset, no stop reason; it is
      balanced and in order from the start on. */
  function Initial(start: int): (r: Stats)
    ensures r.startTime == start && r.stopReason == ""
    ensures r.totalTokens == 0 && r.thinkingTokens == 0 && r.responseTokens == 0
    ensures r.firstTokenTime == 0 && r.firstResponseTokenTime == 0 && r.endTime == 0
    ensures r.thinkingStartTime == 0 && r.thinkingEndTime == 0
    ensures Conserved(r) && Ordered(r, start)
  {
    Stats(start, 0, 0, 0, 0, 0, 0, 0, 0, "")
  }

  /** Every counted delta is counted as exactly one of reasoning or answer. */
  predicate Conserved(s: Stats) {
    s.totalTokens == s.thinkingTokens + s.responseTokens
  }

  /** The stop reason is overwritten by every truthy `finish_reason`,
      whether or not the delta has content. */
  function NoteFinish(s: Stats, reason: Option<string>): (r: Stats)
    ensures r.(stopReason := s.stopReason) == s
    ensures Truthy(reason) ==> r.stopReason == reason.value
    ensures !Truthy(reason) ==> r == s
  {
    s.(stopReason := if Truthy(reason) then reason.value else s.stopReason)
  }

  /** Accounting for one non-empty delta classified by `v` at time `now`:
      the first token ever stamps `firstTokenTime` (keyed on the counter
      being 0), a block start stamps `thinkingStartTime`, an answer delta
      stamps `firstResponseTokenTime` while that is still 0, a block end
      stamps `thinkingEndTime`, and the counters advance. */
  function CountToken(s: Stats, v: Verdict, now: int): (r: Stats)
    ensures r.totalTokens == s.totalTokens + 1
    ensures Conserved(s) ==> Conserved(r)
    ensures r.startTime == s.startTime && r.endTime == s.endTime && r.stopReason == s.stopReason
    ensures r.firstTokenTime != s.firstTokenTime ==> s.totalTokens == 0 && r.firstTokenTime == now
    ensures r.firstResponseTokenTime != s.firstResponseTokenTime ==>
      !v.thinking && s.firstResponseTokenTime == 0 && r.firstResponseTokenTime == now
    ensures r.thinkingStartTime != s.thinkingStartTime ==> v.starts && r.thinkingStartTime == now
    ensures r.thinkingEndTime != s.thinkingEndTime ==> v.ends && r.thinkingEndTime == now
  {
    var first := if s.totalTokens == 0 then now else s.firstTokenTime;
    var started := if v.starts then now else s.thinkingStartTime;
    var ended := if v.ends then now else s.thinkingEndTime;
    if v.thinking then
      s.(firstTokenTime := first, totalTokens := s.totalTokens + 1,
         thinkingStartTime := started, thinkingEndTime := ended,
         thinkingTokens := s.thinkingTokens + 1)
    else
      s.(firstTokenTime := first, totalTokens := s.totalTokens + 1,
         thinkingStartTime := started, thinkingEndTime := ended,
         responseTokens := s.responseTokens + 1,
         firstResponseTokenTime := if s.firstResponseTokenTime == 0 then now else s.firstResponseTokenTime)
  }

  /** Stream end: only `endTime` is written; an open block is not closed. */
  function Finalize(s: Stats, now: int): Stats {
    s.(endTime := now)
  }

  /** The timestamps that are set lie in the order the session produces
      them, between `startTime` and the latest clock reading `t`; a set
      first-token time means some token was counted. */
  predicate Ordered(s: Stats, t: int) {
    && s.startTime <= t
    && (s.totalTokens > 0 ==> s.startTime <= s.firstTokenTime <= t)
    && (s.firstTokenTime != 0 ==> s.totalTokens > 0)
    && (s.firstResponseTokenTime != 0 ==>
          s.totalTokens > 0 && s.firstTokenTime <= s.firstResponseTokenTime <= t)
    && (s.thinkingStartTime != 0 ==> s.startTime <= s.thinkingStartTime <= t)
    && (s.thinkingEndTime != 0 ==> s.startTime <= s.thinkingEndTime <= t)
  }

  /** One delta keeps the counts balanced: the total and exactly one of
      the two class counters grow by one, matching the classification. */
  lemma CountTokenConserves(s: Stats, v: Verdict, now: int)
    requires Conserved(s)
    ensures Conserved(CountToken(s, v, now))
    ensures CountToken(s, v, now).totalTokens == s.totalTokens + 1
    ensures CountToken(s, v, now).thinkingTokens == s.thinkingTokens + (if v.thinking then 1 else 0)
    ensures CountToken(s, v, now).responseTokens == s.responseTokens + (if v.thinking then 0 else 1)
  {
  }

  /** With a clock that does not run backwards, one delta keeps the
      timestamps in order. */
  lemma CountTokenOrdered(s: Stats, v: Verdict, t: int, now: int)
    requires Ordered(s, t) && t <= now
    ensures Ordered(CountToken(s, v, now), now)
  {
  }
}
