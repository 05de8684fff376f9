/**
  The write-draining scheduler in one run with subarrays that may cancel or pause writes.  Every write it sends
  is forced, and a subarray never sends a forced write back; so none comes back at all, although replies are
  followed here whatever they say.
*/
module DrainRuns {
  import opened Controller
  import opened ControllerRuns
  import Device
  import SubArrays
  import WriteDrain
  import WritePausing

  // The scheduler with its controller, and the subarrays.
  datatype Plant = Plant(d: WriteDrain.Drainer, subs: map<SubId, SubArrays.Machine>)

  datatype Step =
    // Anything the scheduler and the controller do but sending.
    | Scheduler(a: WriteDrain.Act)
    // The head of queue q is a write and goes to its subarray.
    | SendWrite(q: nat, now: nat, req: SubArrays.Request, choice: SubArrays.Choice)
    // It is something else; what that does to subarrays are steps of theirs.
    | SendOther(q: nat, now: nat)
    | SubArrayStep(s: SubId, action: SubArrays.Action)
    // A reply; a cancelled or paused write is put back at the head of the write queue as r.
    | Reply(s: SubId, k: nat, r: Req)

  predicate SchedulerAct(a: WriteDrain.Act) {
    match a
    case Return(_, _) => false
    case Other(m, _) => !m.Send?
    case _ => true
  }

  // The request the device sees is the one the command carries.
  predicate Delivers(req: SubArrays.Request, c: Cmd) {
    && Device.IsWrite(c.op) && c.req.Some? && req.op == c.op && req.row == c.addr.row
    && req.id == c.req.value.id && req.forced == c.req.value.forced
  }

  predicate MaySendWrite(cfg: Config, m: Plant, q: nat, now: nat, req: SubArrays.Request)
    requires cfg.banksPerRefresh >= 1
  {
    && CanSend(cfg, m.d.w, q, now) && Delivers(req, QueueAt(m.d.w.st.lines, q)[0])
    && SubOf(QueueAt(m.d.w.st.lines, q)[0].addr) in m.subs
  }

  predicate ComesBack(m: SubArrays.Machine, k: nat, r: Req) {
    && k < |m.replies| && m.replies[k].at == m.now && m.replies[k].what.WriteDone?
    && (m.replies[k].what.req.cancelled || m.replies[k].what.req.paused) && m.replies[k].what.req.id == r.id
  }

  function Stepped(cfg: Config, p: WriteDrain.Params, tp: SubArrays.Timing, m: Plant, step: Step): Plant
    requires GoodConfig(cfg) && SubArrays.NoWrap(tp)
  {
    match step
    case Scheduler(a) => if SchedulerAct(a) then m.(d := WriteDrain.Acted(cfg, p, m.d, a)) else m
    case SendWrite(q, now, req, choice) =>
      if !MaySendWrite(cfg, m, q, now, req) then m
      else
        var s := SubOf(QueueAt(m.d.w.st.lines, q)[0].addr);
        if !SubArrays.IsIssuable(tp, m.subs[s].sub, req, m.subs[s].now) then m
        else
          Plant(m.d.(w := Launched(cfg, m.d.w, q, now)),
                m.subs[s := SubArrays.Act(tp, m.subs[s], SubArrays.Command(req, choice))])
    case SendOther(q, now) =>
      if CanSend(cfg, m.d.w, q, now) && !Device.IsWrite(QueueAt(m.d.w.st.lines, q)[0].op) then
        m.(d := m.d.(w := Launched(cfg, m.d.w, q, now)))
      else m
    case SubArrayStep(s, a) =>
      if s in m.subs && !a.FireReply? && (a.Command? ==> !Device.IsWrite(a.req.op)) then
        m.(subs := m.subs[s := SubArrays.Act(tp, m.subs[s], a)])
      else m
    case Reply(s, k, r) =>
      if s !in m.subs then m
      else
        var answered := m.(subs := m.subs[s := SubArrays.Act(tp, m.subs[s], SubArrays.FireReply(k))]);
        if ComesBack(m.subs[s], k, r) && |m.d.w.st.transactions| == 2 then
          answered.(d := m.d.(w := m.d.w.(st := m.d.w.st.(transactions :=
            m.d.w.st.transactions[WriteDrain.WRITES := [r] + m.d.w.st.transactions[WriteDrain.WRITES]]))))
        else answered
  }

  function PlantRun(cfg: Config, p: WriteDrain.Params, tp: SubArrays.Timing, subs: set<SubId>, steps: seq<Step>): Plant
    requires GoodConfig(cfg) && SubArrays.NoWrap(tp)
  {
    if steps == [] then
      Plant(WriteDrain.Drainer(Start(2), false, false),
            map s | s in subs :: SubArrays.Machine(SubArrays.FRESH, 0, [], [], []))
    else Stepped(cfg, p, tp, PlantRun(cfg, p, tp, subs, steps[..|steps| - 1]), steps[|steps| - 1])
  }

  ghost predicate AllUndisturbed(subs: map<SubId, SubArrays.Machine>) {
    forall s :: s in subs ==> WritePausing.Undisturbed(subs[s])
  }

  ghost predicate Clean(p: WriteDrain.Params, m: Plant) { WriteDrain.Draining(p, m.d) && AllUndisturbed(m.subs) }

  lemma SendKeepsDraining(cfg: Config, p: WriteDrain.Params, d: WriteDrain.Drainer, q: nat, now: nat)
    requires GoodConfig(cfg) && WriteDrain.Draining(p, d) && CanSend(cfg, d.w, q, now)
    ensures WriteDrain.Draining(p, d.(w := Launched(cfg, d.w, q, now)))
    ensures QueueAt(d.w.st.lines, q) != [] && WriteDrain.ForcedWrite(QueueAt(d.w.st.lines, q)[0])
  {
    WriteDrain.SendKeeps(cfg, d.w, q, now);
    assert QueueAt(d.w.st.lines, q)[0] in QueueAt(d.w.st.lines, q);
  }

  lemma StepKeepsClean(cfg: Config, p: WriteDrain.Params, tp: SubArrays.Timing, m: Plant, step: Step)
    requires GoodConfig(cfg) && SubArrays.NoWrap(tp) && Clean(p, m)
    ensures Clean(p, Stepped(cfg, p, tp, m, step))
  {
    hide WriteDrain.Draining, WritePausing.Undisturbed, WriteDrain.Acted, SubArrays.Act, Launched, CanSend;
    match step
    case Scheduler(a) =>
      if SchedulerAct(a) {
        WriteDrain.ActKeeps(cfg, p, m.d, a);
      }
    case SendWrite(q, now, req, choice) =>
      if MaySendWrite(cfg, m, q, now, req) {
        SendKeepsDraining(cfg, p, m.d, q, now);
        var c := QueueAt(m.d.w.st.lines, q)[0];
        WritePausing.ForcedActUndisturbed(tp, m.subs[SubOf(c.addr)], SubArrays.Command(req, choice));
      }
    case SendOther(q, now) =>
      if CanSend(cfg, m.d.w, q, now) {
        SendKeepsDraining(cfg, p, m.d, q, now);
      }
    case SubArrayStep(s, a) =>
      if s in m.subs && (a.Command? ==> !Device.IsWrite(a.req.op)) {
        WritePausing.ForcedActUndisturbed(tp, m.subs[s], a);
      }
    case Reply(s, k, r) =>
      if s in m.subs {
        NoneComesBack(m.subs[s], k, r);
        WritePausing.ForcedActUndisturbed(tp, m.subs[s], SubArrays.FireReply(k));
      }
  }

  lemma NoneComesBack(m: SubArrays.Machine, k: nat, r: Req)
    requires WritePausing.Undisturbed(m)
    ensures !ComesBack(m, k, r)
  {
    if k < |m.replies| {
      assert m.replies[k] in m.replies;
    }
  }

  lemma {:induction false} RunsStayClean(cfg: Config, p: WriteDrain.Params, tp: SubArrays.Timing, subs: set<SubId>,
      steps: seq<Step>)
    requires GoodConfig(cfg) && SubArrays.NoWrap(tp)
    ensures Clean(p, PlantRun(cfg, p, tp, subs, steps))
  {
    if steps == [] {
      WriteDrain.StartsDrained(p);
    } else {
      hide Clean, Stepped;
      RunsStayClean(cfg, p, tp, subs, steps[..|steps| - 1]);
      StepKeepsClean(cfg, p, tp, PlantRun(cfg, p, tp, subs, steps[..|steps| - 1]), steps[|steps| - 1]);
    }
  }

  // In every run of the scheduler with its subarrays, write pausing on or off: no reply puts a write back, every
  // write sent was forced, and the write queue keeps within its size.
  lemma WritesNeverComeBack(cfg: Config, p: WriteDrain.Params, tp: SubArrays.Timing, subs: set<SubId>, steps: seq<Step>,
      s: SubId, k: nat, r: Req)
    requires GoodConfig(cfg) && SubArrays.NoWrap(tp)
    ensures var m := PlantRun(cfg, p, tp, subs, steps);
      && (s in m.subs ==> !ComesBack(m.subs[s], k, r))
      && WriteDrain.LogForced(m.d.w.log) && WriteDrain.Sorted(m.d.w.st)
      && |m.d.w.st.transactions[WriteDrain.WRITES]| <= p.writeQueueSize
  {
    RunsStayClean(cfg, p, tp, subs, steps);
    var m := PlantRun(cfg, p, tp, subs, steps);
    if s in m.subs {
      NoneComesBack(m.subs[s], k, r);
    }
  }
}
