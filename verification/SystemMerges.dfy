/** On frames off the wire no merge of a run ever panics. */
module SystemMerges {
  import opened Prelude
  import R = Resp
  import opened Framing
  import opened Merging
  import opened Routing
  import opened System
  import opened SystemLaws
  import opened SystemSteps
  import opened SystemReplies
  import opened SystemRuns
  import SplitLaws
  import Grouping
  import M = Mux
  import ME = MuxEffects
  import Q = ReplyQueue

  /** What the scanner cuts off a stream. */
  predicate IsFrame(raw: Bytes) { R.ScanAt(raw, 0).Frame? && R.ScanAt(raw, 0).end == |raw| }

  /** Only frames are heard, and merge functions are given as many parts as they know. */
  predicate Clean(e: Event) {
    match e
    case BackendTraffic(_, replies, _) => forall i | 0 <= i < |replies| :: IsFrame(replies[i].raw)
    case ClientTraffic(_, cmds, _) => forall i | 0 <= i < |cmds| && cmds[i].FanCmd? :: Suits(cmds[i].kind, |cmds[i].parts|)
    case _ => true
  }

  predicate Suits(kind: MergeKind, n: nat) {
    kind.MergeMGet? ==> |kind.indices| == n && Fits(kind.indices, kind.total)
  }

  /** Plans always suit. */
  lemma PlansSuit(op: Grouping.Op, args: seq<Bytes>, nodes: map<nat, M.Addr>, parts: seq<Part>, kind: MergeKind)
    requires Planned(op, args, nodes, parts, kind)
    ensures Suits(kind, |parts|)
  {
    hide Grouping.SlotOrder, Grouping.KeysOf, PartFor, Fits;
    var keys := Grouping.KeysOf(op, args);
    SplitLaws.IndicesFit(keys, Grouping.SlotOrder(keys));
  }

  // ---------------------------------------------------------------- what is kept

  ghost predicate FramedAnswers(loc: map<M.Key, M.Loc>) {
    forall k: M.Key | ME.AnswerOf(loc, k).Some? :: IsFrame(ME.AnswerOf(loc, k).value)
  }

  predicate KindsSuit(work: map<SlotRef, Work>) {
    forall r | r in work && work[r].Fan? :: Suits(work[r].kind, |work[r].parts|)
  }

  ghost predicate MergeSafe(w: World) { FramedAnswers(w.mux.loc) && KindsSuit(w.work) }

  lemma QuietFramed(m: M.Mux, m': M.Mux, ks: set<M.Key>, alive: set<nat>)
    requires ME.Quiet(m, m', ks, alive) && FramedAnswers(m.loc)
    ensures FramedAnswers(m'.loc)
  {
    hide IsFrame;
    forall k: M.Key | ME.AnswerOf(m'.loc, k).Some? ensures IsFrame(ME.AnswerOf(m'.loc, k).value) {
      assert k in m.loc && m.loc[k].Finished? ==> ME.AnswerOf(m.loc, k) == ME.AnswerOf(m'.loc, k);
    }
  }

  lemma {:induction false} HearFramed(w: World, addr: M.Addr, rs: seq<Reply>, refused: map<M.Addr, Bytes>)
    requires WorldOk(w, {}) && FramedAnswers(w.mux.loc) && forall i | 0 <= i < |rs| :: IsFrame(rs[i].raw)
    ensures FramedAnswers(HearAll(w, addr, rs, refused).mux.loc) && HearAll(w, addr, rs, refused).work == w.work
    decreases |rs|
  {
    hide WorldOk, M.OnReply, FramedAnswers, IsFrame, DeliverOuts, PostedBy;
    if rs != [] {
      HearOk(w, addr, rs[0], refused);
      HearOneFramed(w, addr, rs[0], refused);
      HearFramed(Absorb(w, M.OnReply(w.mux, M.Env(w.alive, refused), addr, rs[0])), addr, rs[1..], refused);
    }
  }

  lemma HearOneFramed(w: World, addr: M.Addr, r: Reply, refused: map<M.Addr, Bytes>)
    requires WorldOk(w, {}) && FramedAnswers(w.mux.loc) && IsFrame(r.raw)
    ensures FramedAnswers(M.OnReply(w.mux, M.Env(w.alive, refused), addr, r).loc)
  {
    hide M.Inv, ClientOk, Justified, M.OnReply, ME.Quiet, IsFrame, Registered;
    var env := M.Env(w.alive, refused);
    var m' := M.OnReply(w.mux, env, addr, r);
    ME.OnReplyOutcome(w.mux, env, addr, r);
    if ME.Quiet(w.mux, m', {}, w.alive) {
      QuietFramed(w.mux, m', {}, w.alive);
    } else {
      var k: M.Key :| ME.AnswersNow(w.mux, m', k, r.raw);
      AnswerFramed(w.mux, m', k, r.raw);
    }
  }

  lemma AnswerFramed(m: M.Mux, m': M.Mux, k: M.Key, raw: Bytes)
    requires ME.AnswersNow(m, m', k, raw) && FramedAnswers(m.loc) && IsFrame(raw)
    ensures FramedAnswers(m'.loc)
  {
    hide IsFrame;
    forall j: M.Key | ME.AnswerOf(m'.loc, j).Some? ensures IsFrame(ME.AnswerOf(m'.loc, j).value) {
      assert j != k ==> ME.AnswerOf(m'.loc, j) == ME.AnswerOf(m.loc, j);
    }
  }

  lemma AcceptSafe(w: World, c: nat, cmd: Cmd, refused: map<M.Addr, Bytes>)
    requires WorldOk(w, {}) && c in w.clients && MergeSafe(w) && (cmd.FanCmd? ==> Suits(cmd.kind, |cmd.parts|))
    ensures MergeSafe(Accept(w, c, cmd, refused))
  {
    hide M.Inv, ClientOk, Justified, DeliverOuts, PostedBy, SendParts, M.Send, Q.Alloc, Q.Immediate, ME.Quiet, FramedAnswers, Suits;
    var at, env := SlotRef(c, Allocated(w.clients[c])), M.Env(w.alive, refused);
    match cmd {
      case RouteCmd(part) =>
        FreshSlot(w, c, PlainKey(at));
        SendOne(w.mux, env, part.addr, PlainKey(at));
        QuietFramed(w.mux, M.Send(w.mux, env, part.addr, NewRequest(c, at.slot, None)), {PlainKey(at)}, w.alive);
      case FanCmd(parts, kind) =>
        forall j: nat | 0 <= j < |parts| ensures PartKey(at, j) !in w.mux.loc {
          FreshSlot(w, c, PartKey(at, j));
        }
        SendPartsQuiet(w.mux, env, at, parts, 0);
        QuietFramed(w.mux, SendParts(w.mux, env, at, parts, 0), PartKeys(at, 0, |parts|), w.alive);
      case _ =>
    }
  }

  lemma {:induction false} AcceptAllSafe(w: World, c: nat, cmds: seq<Cmd>, refused: map<M.Addr, Bytes>)
    requires WorldOk(w, {}) && NoAccum(w.clients) && MergeSafe(w)
    requires forall i | 0 <= i < |cmds| :: Sane(cmds[i]) && (cmds[i].FanCmd? ==> Suits(cmds[i].kind, |cmds[i].parts|))
    ensures MergeSafe(AcceptAll(w, c, cmds, refused))
    decreases |cmds|
  {
    hide WorldOk, Accept, NoAccum, MergeSafe, Suits, Sane;
    if cmds != [] && c in w.clients {
      AcceptOk(w, c, cmds[0], refused);
      AcceptSafe(w, c, cmds[0], refused);
      AcceptAllSafe(Accept(w, c, cmds[0], refused), c, cmds[1..], refused);
    }
  }

  // ------------------------------------------------------------------------ runs

  lemma StepSafe(w: World, e: Event)
    requires Inv(w) && Enabled(w, e) && Clean(e) && MergeSafe(w)
    ensures MergeSafe(Step(w, e))
  {
    hide WorldOk, AcceptAll, HearAll, DeliverOuts, PostedBy, M.FlushAll, Q.FillInLoop, FramedAnswers, KindsSuit,
         IsFrame, Suits, M.Open, M.Close, M.DialFailed;
    var env := M.Env(w.alive, map[]);
    match e {
      case ClientTraffic(c, cmds, refused) =>
        AcceptAllSafe(w, c, cmds, refused);
        FlushLoc(AcceptAll(w, c, cmds, refused).mux);
      case BackendTraffic(addr, rs, refused) =>
        HearFramed(w, addr, rs, refused);
        FlushLoc(HearAll(w, addr, rs, refused).mux);
      case BackendOpen(addr, replica) =>
        ME.OpenQuiet(w.mux, addr, replica, w.alive);
        QuietFramed(w.mux, M.Open(w.mux, addr, replica), {}, w.alive);
      case BackendClosed(addr) =>
        MuxOk(w);
        ME.CloseQuiet(w.mux, env, addr);
        QuietFramed(w.mux, M.Close(w.mux, env, addr), {}, w.alive);
      case DialError(addr, err) =>
        MuxOk(w);
        ME.DialFailedQuiet(w.mux, env, addr, err);
        QuietFramed(w.mux, M.DialFailed(w.mux, env, addr, err), {}, w.alive);
      case _ =>
    }
  }

  lemma FlushLoc(m: M.Mux)
    ensures M.FlushAll(m).loc == m.loc
  {
  }

  lemma MuxOk(w: World)
    requires Inv(w)
    ensures M.Inv(w.mux)
  {
    hide M.Inv, ClientOk, Justified, Registered;
  }

  lemma {:induction false} RunSafe(w: World, events: seq<Event>)
    requires Inv(w) && IsRun(w, events) && MergeSafe(w) && forall i | 0 <= i < |events| :: Clean(events[i])
    ensures MergeSafe(After(w, events))
    decreases |events|
  {
    hide Inv, Step, Enabled, Clean, MergeSafe;
    if events != [] {
      StepInv(w, events[0]);
      StepSafe(w, events[0]);
      RunSafe(Step(w, events[0]), events[1..]);
    }
  }

  /** In every such run, once all parts of a slot are answered - which is when its
      merge runs - the merge yields a reply, and that is the one MergeReply stands for. */
  lemma NoMergePanics(events: seq<Event>, at: SlotRef)
    requires IsRun(START, events) && forall i | 0 <= i < |events| :: Clean(events[i])
    requires at in After(START, events).work && After(START, events).work[at].Fan?
    requires var w := After(START, events); AllAnswered(w.mux.loc, at, |w.work[at].parts|)
    ensures var w := After(START, events);
            var kind, subs := w.work[at].kind, Q.Payloads(Parts(w.mux.loc, at, |w.work[at].parts|));
            Applicable(kind, subs) && Merge(kind, subs).Merged? && Q.MergeReply(kind, subs) == Merge(kind, subs).data
  {
    hide After, IsRun, Inv, Clean, IsFrame, Merge, Step;
    StartInv();
    assert MergeSafe(START);
    RunSafe(START, events);
    var w := After(START, events);
    var kind, n := w.work[at].kind, |w.work[at].parts|;
    var subs := Q.Payloads(Parts(w.mux.loc, at, n));
    forall i | 0 <= i < n ensures IsFrame(subs[i]) {
      assert ME.AnswerOf(w.mux.loc, PartKey(at, i)).Some?;
    }
    FramesMerge(kind, subs);
  }

  lemma FramesMerge(kind: MergeKind, subs: seq<Bytes>)
    requires Suits(kind, |subs|) && forall i | 0 <= i < |subs| :: IsFrame(subs[i])
    ensures Merge(kind, subs).Merged? && Q.MergeReply(kind, subs) == Merge(kind, subs).data
  {
    hide Merge;
    ScannedNeverPanics(kind, subs);
  }
}
