/** What one line and one delta do to the decoder state and the output. */
module DeltaProperties {
  import opened Text
  import opened Markers
  import opened Classifier
  import opened SessionStats
  import opened Decoder

  /** Only `data: ` lines are looked at, and their payload is the text
      after that prefix. The `[DONE]` sentinel and a payload that
      does not parse leave every part of the state as it was and send
      nothing; a parsed payload is one delta. */
  lemma FrameFilter(st: State, line: string, cfg: Config, env: Env)
    ensures !StartsWith(line, DataPrefix) ==> ProcessLine(st, line, cfg, env) == Output(st, [])
    ensures StartsWith(line, DataPrefix) && line[|DataPrefix|..] == DoneSentinel ==>
      ProcessLine(st, line, cfg, env) == Output(st, [])
    ensures StartsWith(line, DataPrefix) && cfg.parse(line[|DataPrefix|..]).Malformed? ==>
      ProcessLine(st, line, cfg, env) == Output(st, [])
    ensures StartsWith(line, DataPrefix) && line[|DataPrefix|..] != DoneSentinel && cfg.parse(line[|DataPrefix|..]).Parsed? ==>
      var p := cfg.parse(line[|DataPrefix|..]);
      ProcessLine(st, line, cfg, env) == ApplyDelta(st, p.content, p.finishReason, cfg.pref, env)
  {
  }

  /** A delta without content only records a truthy `finish_reason`:
      counters, timestamps, the flag and the closed flag stay, and nothing
      is sent. */
  lemma KeepAlive(st: State, reason: Option<string>, pref: ThinkingPref, env: Env)
    ensures var r := ApplyDelta(st, "", reason, pref, env);
      && r.events == []
      && r.state.inside == st.inside && r.state.closed == st.closed && r.state.buffer == st.buffer
      && r.state.stats == st.stats.(stopReason := r.state.stats.stopReason)
      && r.state.stats.stopReason == (if Truthy(reason) then reason.value else st.stats.stopReason)
  {
  }

  /** Token conservation for one delta: a non-empty delta adds one to the
      total and one to exactly one of the two class counters, so the
      balance survives every delta, marker-only ones included. */
  lemma DeltaCounts(st: State, content: string, reason: Option<string>, pref: ThinkingPref, env: Env)
    requires content != ""
    ensures var s := ApplyDelta(st, content, reason, pref, env).state.stats;
      && s.totalTokens == st.stats.totalTokens + 1
      && s.thinkingTokens + s.responseTokens == st.stats.thinkingTokens + st.stats.responseTokens + 1
      && s.thinkingTokens >= st.stats.thinkingTokens && s.responseTokens >= st.stats.responseTokens
      && (Conserved(st.stats) ==> Conserved(s))
  {
  }

  /** Classification and transition: a delta is reasoning iff the flag was
      set before it or its raw text holds `<think>`; afterwards the flag is
      clear if the text holds `</think>`, set if it holds `<think>`, and
      unchanged otherwise, whatever order the markers come in. The event
      carries the classification, the stripped text and the updated
      statistics. */
  lemma DeltaClassification(st: State, content: string, reason: Option<string>, pref: ThinkingPref, env: Env)
    requires content != ""
    ensures var r := ApplyDelta(st, content, reason, pref, env);
      var thinking := st.inside || Contains(content, Open);
      && (r.state.stats.thinkingTokens == st.stats.thinkingTokens + 1 <==> thinking)
      && (r.state.stats.responseTokens == st.stats.responseTokens + 1 <==> !thinking)
      && r.state.inside == (if Contains(content, Close) then false else thinking)
      && forall e :: e in r.events ==>
           e.isThinking == thinking && e.content == Strip(content) && !e.completed && e.stats == r.state.stats
  {
  }

  /** Timestamps of one delta: `firstTokenTime` only on the first counted
      delta, `firstResponseTokenTime` only on an answer delta while still
      unset, `thinkingStartTime` only when a block opens from outside,
      `thinkingEndTime` only when `</think>` arrives inside a block; the
      start and end times are never touched, and the stop reason is
      overwritten by a truthy `finish_reason` with or without content. */
  lemma DeltaTimestamps(st: State, content: string, reason: Option<string>, pref: ThinkingPref, env: Env)
    ensures var s := ApplyDelta(st, content, reason, pref, env).state.stats;
      var was := st.stats;
      var counted := content != "";
      var thinking := st.inside || Contains(content, Open);
      && s.startTime == was.startTime && s.endTime == was.endTime
      && s.firstTokenTime == (if counted && was.totalTokens == 0 then env.now else was.firstTokenTime)
      && s.firstResponseTokenTime
         == (if counted && !thinking && was.firstResponseTokenTime == 0 then env.now else was.firstResponseTokenTime)
      && s.thinkingStartTime
         == (if counted && !st.inside && Contains(content, Open) then env.now else was.thinkingStartTime)
      && s.thinkingEndTime
         == (if counted && thinking && Contains(content, Close) then env.now else was.thinkingEndTime)
      && s.stopReason == (if Truthy(reason) then reason.value else was.stopReason)
  {
  }

  /** Emission and closure for one delta: an event goes out iff the delta
      has content, the output is open, the delta is not withheld by an
      exactly-false preference, and the output takes it. The output becomes
      closed exactly when an attempted send is refused, and never reopens. */
  lemma DeltaEmission(st: State, content: string, reason: Option<string>, pref: ThinkingPref, env: Env)
    ensures var r := ApplyDelta(st, content, reason, pref, env);
      var thinking := st.inside || Contains(content, Open);
      var attempted := content != "" && !st.closed && !Suppressed(pref, thinking);
      && (|r.events| == 1 <==> attempted && env.accepts)
      && (r.state.closed <==> st.closed || (attempted && !env.accepts))
  {
  }
}
