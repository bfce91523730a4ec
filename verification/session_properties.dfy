/** Properties of whole runs: chunk independence of the decoder, the
    invariants every step keeps, closure, suppression and the single
    completion record. */
module SessionProperties {
  import opened Text
  import opened Markers
  import opened SessionStats
  import opened Decoder
  import Framing

  // ---------------------------------------------------------------------
  // Structure of the line fold

  /** Line processing never reads or writes the pending text. */
  lemma {:induction false} LinesIgnoreBuffer(st: State, lines: seq<string>, cfg: Config, env: Env, x: string)
    ensures ProcessLines(st, lines, cfg, env).state.buffer == st.buffer
    ensures var o := ProcessLines(st, lines, cfg, env);
      ProcessLines(st.(buffer := x), lines, cfg, env) == Output(o.state.(buffer := x), o.events)
    decreases |lines|
  {
    if lines != [] {
      var o := ProcessLine(st, lines[0], cfg, env);
      var o' := ProcessLine(st.(buffer := x), lines[0], cfg, env);
      assert o' == Output(o.state.(buffer := x), o.events) && o.state.buffer == st.buffer;
      LinesIgnoreBuffer(o.state, lines[1..], cfg, env, x);
      assert o.state.(buffer := x) == o.state.(buffer := x).(buffer := x);
    }
  }

  /** Processing two runs of lines one after the other is processing
      their concatenation. */
  lemma {:induction false} LinesAppend(st: State, a: seq<string>, b: seq<string>, cfg: Config, env: Env)
    ensures var o1 := ProcessLines(st, a, cfg, env);
      var o2 := ProcessLines(o1.state, b, cfg, env);
      ProcessLines(st, a + b, cfg, env) == Output(o2.state, o1.events + o2.events)
    decreases |a|
  {
    if a == [] {
      assert a + b == b;
    } else {
      assert (a + b)[0] == a[0] && (a + b)[1..] == a[1..] + b;
      var o := ProcessLine(st, a[0], cfg, env);
      LinesAppend(o.state, a[1..], b, cfg, env);
      var r1 := ProcessLines(o.state, a[1..], cfg, env);
      var r2 := ProcessLines(r1.state, b, cfg, env);
      assert o.events + (r1.events + r2.events) == (o.events + r1.events) + r2.events;
    }
  }

  // ---------------------------------------------------------------------
  // Chunk independence

  /** Every chunk carries the same environment `e`. */
  predicate Constant(envs: seq<Env>, e: Env) {
    forall i :: 0 <= i < |envs| ==> envs[i] == e
  }

  /** Chunk boundaries do not matter: with the same environment, feeding
      chunks one at a time processes exactly the '\n'-terminated lines of
      the pending text and all chunks, once each and in order, and keeps
      the unterminated tail pending, unprocessed. */
  lemma {:induction false} FeedIsLineFold(st: State, chunks: seq<string>, cfg: Config, envs: seq<Env>, e: Env)
    requires |envs| == |chunks| && Constant(envs, e)
    requires NoNewline(st.buffer)
    ensures var whole := st.buffer + Concat(chunks);
      Feed(st, chunks, cfg, envs)
      == ProcessLines(st.(buffer := Framing.Trailing(whole)), Framing.CompleteLines(whole), cfg, e)
    decreases |chunks|
  {
    var whole := st.buffer + Concat(chunks);
    if chunks == [] {
      assert whole == st.buffer;
      assert st.buffer == Framing.Unlines([]) + st.buffer;
      Framing.DecompositionUnique(whole, [], st.buffer);
      assert st.(buffer := Framing.Trailing(whole)) == st;
    } else {
      assert envs[0] == e;
      var f := Framing.Frame(st.buffer, chunks[0]);
      var o := Step(st, chunks[0], cfg, e);
      LinesIgnoreBuffer(st.(buffer := f.rest), f.lines, cfg, e, f.rest);
      assert o.state.buffer == f.rest;
      assert Constant(envs[1..], e);
      FeedIsLineFold(o.state, chunks[1..], cfg, envs[1..], e);
      var y := f.rest + Concat(chunks[1..]);
      Framing.FeedRegroup(st.buffer, chunks);
      Framing.CompleteLinesAfter(f.lines, y);
      var t := Framing.Trailing(y);
      // the first chunk's lines, then the rest, with the final tail pending
      LinesAppend(st.(buffer := t), f.lines, Framing.CompleteLines(y), cfg, e);
      LinesIgnoreBuffer(st.(buffer := f.rest), f.lines, cfg, e, t);
      assert st.(buffer := f.rest).(buffer := t) == st.(buffer := t);
      assert o.state.(buffer := t) == ProcessLines(st.(buffer := t), f.lines, cfg, e).state;
    }
  }

  /** Only the complete lines of a response decide what the browser
      receives: two chunkings whose '\n'-terminated lines agree produce the
      same records, whatever their chunk boundaries and unterminated tails. */
  lemma OnlyCompleteLinesMatter(start: int, cfg: Config, e: Env, endEnv: Env,
                                chunks1: seq<string>, envs1: seq<Env>,
                                chunks2: seq<string>, envs2: seq<Env>)
    requires |envs1| == |chunks1| && Constant(envs1, e)
    requires |envs2| == |chunks2| && Constant(envs2, e)
    requires Framing.CompleteLines(Concat(chunks1)) == Framing.CompleteLines(Concat(chunks2))
    ensures Session(start, chunks1, cfg, envs1, endEnv).events == Session(start, chunks2, cfg, envs2, endEnv).events
  {
    var st := Init(start);
    assert st.buffer + Concat(chunks1) == Concat(chunks1);
    assert st.buffer + Concat(chunks2) == Concat(chunks2);
    FeedIsLineFold(st, chunks1, cfg, envs1, e);
    FeedIsLineFold(st, chunks2, cfg, envs2, e);
    var lines := Framing.CompleteLines(Concat(chunks1));
    var o := ProcessLines(st, lines, cfg, e);
    LinesIgnoreBuffer(st, lines, cfg, e, Framing.Trailing(Concat(chunks1)));
    LinesIgnoreBuffer(st, lines, cfg, e, Framing.Trailing(Concat(chunks2)));
  }

  // ---------------------------------------------------------------------
  // Token conservation

  predicate AllConserved(events: seq<Event>) {
    forall i :: 0 <= i < |events| ==> Conserved(events[i].stats)
  }

  lemma AllConservedAppend(a: seq<Event>, b: seq<Event>)
    requires AllConserved(a) && AllConserved(b)
    ensures AllConserved(a + b)
  {
    forall i | 0 <= i < |a + b|
      ensures Conserved((a + b)[i].stats)
    {
      if i >= |a| {
        assert (a + b)[i] == b[i - |a|];
      }
    }
  }

  lemma {:induction false} LinesConserve(st: State, lines: seq<string>, cfg: Config, env: Env)
    requires Conserved(st.stats)
    ensures var o := ProcessLines(st, lines, cfg, env);
      Conserved(o.state.stats) && AllConserved(o.events)
    decreases |lines|
  {
    if lines != [] {
      var o := ProcessLine(st, lines[0], cfg, env);
      assert Conserved(o.state.stats) && AllConserved(o.events);
      LinesConserve(o.state, lines[1..], cfg, env);
      AllConservedAppend(o.events, ProcessLines(o.state, lines[1..], cfg, env).events);
    }
  }

  lemma {:induction false} FeedConserves(st: State, chunks: seq<string>, cfg: Config, envs: seq<Env>)
    requires |envs| == |chunks| && Conserved(st.stats)
    ensures var o := Feed(st, chunks, cfg, envs);
      Conserved(o.state.stats) && AllConserved(o.events)
    decreases |chunks|
  {
    if chunks != [] {
      var f := Framing.Frame(st.buffer, chunks[0]);
      LinesConserve(st.(buffer := f.rest), f.lines, cfg, envs[0]);
      var o := Step(st, chunks[0], cfg, envs[0]);
      FeedConserves(o.state, chunks[1..], cfg, envs[1..]);
      AllConservedAppend(o.events, Feed(o.state, chunks[1..], cfg, envs[1..]).events);
    }
  }

  /** Token conservation: `totalTokens == thinkingTokens + responseTokens`
      in the final statistics and in the statistics of every record sent. */
  lemma SessionConserves(start: int, chunks: seq<string>, cfg: Config, envs: seq<Env>, endEnv: Env)
    requires |envs| == |chunks|
    ensures var o := Session(start, chunks, cfg, envs, endEnv);
      Conserved(o.state.stats) && AllConserved(o.events)
  {
    var o := Feed(Init(start), chunks, cfg, envs);
    FeedConserves(Init(start), chunks, cfg, envs);
    AllConservedAppend(o.events, Finish(o.state, endEnv).events);
  }

  // ---------------------------------------------------------------------
  // Closure

  /** Once an output refuses a record, nothing more reaches it, the
      completion record included: the closure clauses of `Feed` and
      `Finish` put together. The statistics still count every delta:
      `DeltaProperties.DeltaCounts` holds whether or not the output is
      open. */
  lemma FeedWhenClosed(st: State, chunks: seq<string>, cfg: Config, envs: seq<Env>, endEnv: Env)
    requires |envs| == |chunks|
    ensures st.closed ==> Feed(st, chunks, cfg, envs).state.closed
    ensures st.closed ==> Feed(st, chunks, cfg, envs).events == []
    ensures st.closed ==> Finish(Feed(st, chunks, cfg, envs).state, endEnv).events == []
  {
  }

  // ---------------------------------------------------------------------
  // Suppression

  predicate NoReasoningSent(events: seq<Event>) {
    forall i :: 0 <= i < |events| ==> !events[i].isThinking
  }

  lemma NoReasoningAppend(a: seq<Event>, b: seq<Event>)
    requires NoReasoningSent(a) && NoReasoningSent(b)
    ensures NoReasoningSent(a + b)
  {
    forall i | 0 <= i < |a + b|
      ensures !(a + b)[i].isThinking
    {
      if i >= |a| {
        assert (a + b)[i] == b[i - |a|];
      }
    }
  }

  lemma {:induction false} LinesSuppress(st: State, lines: seq<string>, cfg: Config, env: Env)
    requires cfg.pref == Off
    ensures NoReasoningSent(ProcessLines(st, lines, cfg, env).events)
    decreases |lines|
  {
    if lines != [] {
      var o := ProcessLine(st, lines[0], cfg, env);
      LinesSuppress(o.state, lines[1..], cfg, env);
      NoReasoningAppend(o.events, ProcessLines(o.state, lines[1..], cfg, env).events);
    }
  }

  lemma {:induction false} FeedSuppresses(st: State, chunks: seq<string>, cfg: Config, envs: seq<Env>)
    requires |envs| == |chunks| && cfg.pref == Off
    ensures NoReasoningSent(Feed(st, chunks, cfg, envs).events)
    decreases |chunks|
  {
    if chunks != [] {
      var f := Framing.Frame(st.buffer, chunks[0]);
      LinesSuppress(st.(buffer := f.rest), f.lines, cfg, envs[0]);
      var o := Step(st, chunks[0], cfg, envs[0]);
      FeedSuppresses(o.state, chunks[1..], cfg, envs[1..]);
      NoReasoningAppend(o.events, Feed(o.state, chunks[1..], cfg, envs[1..]).events);
    }
  }

  /** With the preference exactly `false`, no record the browser receives
      is marked as reasoning; reasoning deltas are still counted. */
  lemma SessionSuppresses(start: int, chunks: seq<string>, cfg: Config, envs: seq<Env>, endEnv: Env)
    requires |envs| == |chunks| && cfg.pref == Off
    ensures NoReasoningSent(Session(start, chunks, cfg, envs, endEnv).events)
  {
    var o := Feed(Init(start), chunks, cfg, envs);
    FeedSuppresses(Init(start), chunks, cfg, envs);
    NoReasoningAppend(o.events, Finish(o.state, endEnv).events);
  }

  // ---------------------------------------------------------------------
  // The completion record

  predicate NoneCompleted(events: seq<Event>) {
    forall i :: 0 <= i < |events| ==> !events[i].completed
  }

  lemma NoneCompletedAppend(a: seq<Event>, b: seq<Event>)
    requires NoneCompleted(a) && NoneCompleted(b)
    ensures NoneCompleted(a + b)
  {
    forall i | 0 <= i < |a + b|
      ensures !(a + b)[i].completed
    {
      if i >= |a| {
        assert (a + b)[i] == b[i - |a|];
      }
    }
  }

  lemma {:induction false} LinesNeverComplete(st: State, lines: seq<string>, cfg: Config, env: Env)
    ensures NoneCompleted(ProcessLines(st, lines, cfg, env).events)
    decreases |lines|
  {
    if lines != [] {
      var o := ProcessLine(st, lines[0], cfg, env);
      LinesNeverComplete(o.state, lines[1..], cfg, env);
      NoneCompletedAppend(o.events, ProcessLines(o.state, lines[1..], cfg, env).events);
    }
  }

  lemma {:induction false} FeedNeverCompletes(st: State, chunks: seq<string>, cfg: Config, envs: seq<Env>)
    requires |envs| == |chunks|
    ensures NoneCompleted(Feed(st, chunks, cfg, envs).events)
    decreases |chunks|
  {
    if chunks != [] {
      var f := Framing.Frame(st.buffer, chunks[0]);
      LinesNeverComplete(st.(buffer := f.rest), f.lines, cfg, envs[0]);
      var o := Step(st, chunks[0], cfg, envs[0]);
      FeedNeverCompletes(o.state, chunks[1..], cfg, envs[1..]);
      NoneCompletedAppend(o.events, Feed(o.state, chunks[1..], cfg, envs[1..]).events);
    }
  }

  /** A session sends at most one `completed` record, only as its very
      last record, and sends it exactly when the output is still open at
      the end of the body and takes it. That record has empty content, is
      not reasoning, and carries the final statistics with `endTime` set to
      the end reading. */
  lemma SingleCompletion(start: int, chunks: seq<string>, cfg: Config, envs: seq<Env>, endEnv: Env)
    requires |envs| == |chunks|
    ensures var o := Session(start, chunks, cfg, envs, endEnv);
      var fed := Feed(Init(start), chunks, cfg, envs);
      && (forall i :: 0 <= i < |o.events| - 1 ==> !o.events[i].completed)
      && (|o.events| > 0 && o.events[|o.events| - 1].completed
          <==> !fed.state.closed && endEnv.accepts)
      && (|o.events| > 0 && o.events[|o.events| - 1].completed ==>
            o.events[|o.events| - 1] == Event("", false, o.state.stats, true)
            && o.state.stats.endTime == endEnv.now)
  {
    var fed := Feed(Init(start), chunks, cfg, envs);
    FeedNeverCompletes(Init(start), chunks, cfg, envs);
    var f := Finish(fed.state, endEnv);
    var all := fed.events + f.events;
    forall i | 0 <= i < |all| - 1
      ensures !all[i].completed
    {
      assert i < |fed.events|;
      assert all[i] == fed.events[i];
    }
    if f.events == [] {
      assert all == fed.events;
      if |all| > 0 {
        assert !all[|all| - 1].completed;
      }
    }
  }

  // ---------------------------------------------------------------------
  // Timestamps

  /** Clock readings that never run backwards and lie between `lo` and `hi`. */
  predicate Clocked(envs: seq<Env>, lo: int, hi: int) {
    && (forall i :: 0 <= i < |envs| ==> lo <= envs[i].now <= hi)
    && (forall i, j :: 0 <= i <= j < |envs| ==> envs[i].now <= envs[j].now)
  }

  lemma OrderedLater(s: Stats, t: int, t': int)
    requires Ordered(s, t) && t <= t'
    ensures Ordered(s, t')
  {
  }

  lemma {:induction false} LinesOrdered(st: State, lines: seq<string>, cfg: Config, env: Env, t: int)
    requires Ordered(st.stats, t) && t <= env.now
    ensures Ordered(ProcessLines(st, lines, cfg, env).state.stats, env.now)
    ensures ProcessLines(st, lines, cfg, env).state.stats.startTime == st.stats.startTime
    decreases |lines|
  {
    if lines == [] {
      OrderedLater(st.stats, t, env.now);
    } else {
      var o := ProcessLine(st, lines[0], cfg, env);
      if o.state.stats != st.stats {
        assert Ordered(o.state.stats, env.now) by {
          var d := DataOf(lines[0]).value;
          var p := cfg.parse(d);
          var v := Classifier.Classify(st.inside, p.content);
          CountTokenOrdered(NoteFinish(st.stats, p.finishReason), v, t, env.now);
        }
      } else {
        OrderedLater(st.stats, t, env.now);
      }
      LinesOrdered(o.state, lines[1..], cfg, env, env.now);
    }
  }

  lemma {:induction false} FeedOrdered(st: State, chunks: seq<string>, cfg: Config, envs: seq<Env>, t: int, hi: int)
    requires |envs| == |chunks|
    requires Ordered(st.stats, t) && t <= hi && Clocked(envs, t, hi)
    ensures Ordered(Feed(st, chunks, cfg, envs).state.stats, hi)
    ensures Feed(st, chunks, cfg, envs).state.stats.startTime == st.stats.startTime
    decreases |chunks|
  {
    if chunks == [] {
      OrderedLater(st.stats, t, hi);
    } else {
      var f := Framing.Frame(st.buffer, chunks[0]);
      LinesOrdered(st.(buffer := f.rest), f.lines, cfg, envs[0], t);
      var o := Step(st, chunks[0], cfg, envs[0]);
      assert Clocked(envs[1..], envs[0].now, hi) by {
        forall i | 0 <= i < |envs[1..]|
          ensures envs[0].now <= envs[1..][i].now
        {
          assert envs[1..][i] == envs[i + 1];
        }
      }
      FeedOrdered(o.state, chunks[1..], cfg, envs[1..], envs[0].now, hi);
    }
  }

  /** Monotone timestamps: with a clock that never runs backwards, the
      final statistics satisfy start <= first token <= first answer token
      <= end, and both block timestamps lie between start and end, each
      comparison made only when its timestamps are set. */
  lemma TimestampsOrdered(start: int, chunks: seq<string>, cfg: Config, envs: seq<Env>, endEnv: Env)
    requires |envs| == |chunks|
    requires start <= endEnv.now && Clocked(envs, start, endEnv.now)
    ensures var s := Session(start, chunks, cfg, envs, endEnv).state.stats;
      && s.startTime == start && s.endTime == endEnv.now
      && (s.totalTokens > 0 ==> s.startTime <= s.firstTokenTime <= s.endTime)
      && (s.firstTokenTime != 0 ==> s.totalTokens > 0)
      && (s.firstResponseTokenTime != 0 ==> s.firstTokenTime <= s.firstResponseTokenTime <= s.endTime)
      && (s.thinkingStartTime != 0 ==> s.startTime <= s.thinkingStartTime <= s.endTime)
      && (s.thinkingEndTime != 0 ==> s.startTime <= s.thinkingEndTime <= s.endTime)
  {
    FeedOrdered(Init(start), chunks, cfg, envs, start, endEnv.now);
  }
}
