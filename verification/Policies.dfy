/** The dispatch of main.c over the scheduling policies, and what every policy does to the kernel's
    priorities. */
module Policies {
  import opened Processes
  import opened HeapContents
  import R = RoundRobin
  import S = ShortestJob
  import P = PreemptiveShortestJob

  datatype Policy = RoundRobin(ring: R.Ring) | Sjf(sjf: S.SjfState) | Psjf(psjf: P.PsjfState)

  /** The processes the policy manages. */
  ghost function Members(pol: Policy): set<Entry> {
    match pol
    case RoundRobin(ring) => SetOf(ring.pq)
    case Sjf(s) => s.waiting + (if s.active.Some? then {s.active.value} else {})
    case Psjf(s) => s.heap
  }

  /** The process the policy considers to be running. */
  ghost function Current(pol: Policy): Option<Entry> {
    match pol
    case RoundRobin(ring) => if ring.cur >= 0 then Some(ring.pq[ring.cur]) else None
    case Sjf(s) => s.active
    case Psjf(s) => s.active
  }

  ghost predicate CanAdd(pol: Policy) {
    pol.Psjf? ==> P.CanAdd(pol.psjf)
  }

  ghost function Add(pol: Policy, e: Entry, arrival: int): Policy
    requires CanAdd(pol)
  {
    match pol
    case RoundRobin(ring) => RoundRobin(R.Added(ring, e))
    case Sjf(s) => Sjf(S.Added(s, e))
    case Psjf(s) => Psjf(P.Added(s, e, arrival))
  }

  ghost predicate CanRemove(pol: Policy) {
    match pol
    case RoundRobin(ring) => ring.pq != []
    case Sjf(s) => true
    case Psjf(s) => P.CanRemove(s)
  }

  ghost function Remove(pol: Policy): Policy
    requires CanRemove(pol)
  {
    match pol
    case RoundRobin(ring) => RoundRobin(R.Removed(ring))
    case Sjf(s) => Sjf(S.Removed(s))
    case Psjf(s) => Psjf(P.Removed(s))
  }

  ghost predicate CanSwitch(pol: Policy) {
    pol.Sjf? ==> S.CanSwitch(pol.sjf)
  }

  ghost function Switch(pol: Policy): Policy
    requires CanSwitch(pol)
  {
    match pol
    case RoundRobin(ring) => pol
    case Sjf(s) => Sjf(S.Switched(s))
    case Psjf(s) => Psjf(P.Switched(s))
  }

  ghost function SwitchPriorities(pol: Policy, prio: map<int, Priority>): map<int, Priority>
    requires CanSwitch(pol)
  {
    match pol
    case RoundRobin(ring) => R.Switched(ring, prio)
    case Sjf(s) => S.SwitchedPriorities(s, prio)
    case Psjf(s) => P.SwitchedPriorities(s, prio)
  }

  ghost predicate Empty(pol: Policy) {
    match pol
    case RoundRobin(ring) => R.Queue(ring) == []
    case Sjf(s) => s.waiting == {} && s.active == None
    case Psjf(s) => s.heap == {} && s.active == None
  }

  /** How many places of its array the policy occupies. */
  ghost function Slots(pol: Policy): nat {
    match pol
    case RoundRobin(ring) => |ring.pq|
    case Sjf(s) => |s.waiting|
    case Psjf(s) => |s.heap|
  }

  // ---------- Well-formed policies ----------

  ghost predicate WellFormed(pol: Policy) {
    && DistinctPids(Members(pol))
    && (pol.RoundRobin? ==> Unique(pol.ring.pq))
    && (pol.Sjf? && pol.sjf.active.Some? ==> pol.sjf.active.value !in pol.sjf.waiting)
    && (pol.Psjf? && pol.psjf.active.Some? ==> pol.psjf.active.value in pol.psjf.heap)
  }

  ghost predicate IsCurrent(pol: Policy, pid: int) {
    Current(pol).Some? && pid == Current(pol).value.pid
  }

  /** The report's promise: if there is any child, exactly one is High, the policy's current one, and the
      kernel knows exactly the policy's processes. */
  ghost predicate Settled(pol: Policy, prio: map<int, Priority>) {
    && prio.Keys == PidsOf(Members(pol))
    && (Members(pol) != {} ==> Current(pol).Some? && Current(pol).value in Members(pol))
    && forall p :: p in prio ==> (prio[p] == High <==> IsCurrent(pol, p))
  }

  /** Between context switches: nobody but the current process is High, and only round robin may have to
      start it yet. */
  ghost predicate Quiet(pol: Policy, prio: map<int, Priority>) {
    && prio.Keys == PidsOf(Members(pol))
    && (forall p :: p in prio && prio[p] == High ==> IsCurrent(pol, p))
    && (!pol.RoundRobin? ==> forall p :: p in prio && IsCurrent(pol, p) ==> prio[p] == High)
  }

  /** What the next context switch can repair: round robin's previous process may be High as well. */
  ghost predicate Ready(pol: Policy, prio: map<int, Priority>) {
    && prio.Keys == PidsOf(Members(pol))
    && (forall p :: p in prio && prio[p] == High ==>
          IsCurrent(pol, p) ||
          (pol.RoundRobin? && 0 <= pol.ring.prev && p == pol.ring.pq[pol.ring.prev].pid))
    && (!pol.RoundRobin? ==> forall p :: p in prio && IsCurrent(pol, p) ==> prio[p] == High)
  }

  lemma CurrentIsMember(pol: Policy)
    requires WellFormed(pol)
    ensures Current(pol).Some? ==> Current(pol).value in Members(pol)
  {
  }

  /** The processes after `Add`; PSJF also brings the active one up to date. */
  ghost function MembersAfterAdd(pol: Policy, e: Entry, arrival: int): set<Entry>
    requires CanAdd(pol)
  {
    if pol.Psjf? then Members(pol) - {pol.psjf.active.value} + {P.Charged(pol.psjf, arrival)} + {e}
    else Members(pol) + {e}
  }

  lemma AddKeepsWellFormed(pol: Policy, e: Entry, arrival: int)
    requires WellFormed(pol) && CanAdd(pol) && e.pid !in PidsOf(Members(pol))
    ensures WellFormed(Add(pol, e, arrival))
    ensures Members(Add(pol, e, arrival)) == MembersAfterAdd(pol, e, arrival)
    ensures PidsOf(MembersAfterAdd(pol, e, arrival)) == PidsOf(Members(pol)) + {e.pid}
  {
    assert forall x :: x in Members(pol) ==> x.pid in PidsOf(Members(pol));
    match pol {
      case RoundRobin(ring) => AddToRing(ring, e);
      case Sjf(s) =>
      case Psjf(s) => AddToPsjf(s, e, arrival);
    }
    PidsWith(Members(pol), e);
  }

  lemma AddKeepsCurrent(pol: Policy, e: Entry, arrival: int, pid: int)
    requires WellFormed(pol) && CanAdd(pol) && e.pid !in PidsOf(Members(pol))
    requires pid in PidsOf(Members(pol)) || (!pol.RoundRobin? && pid == e.pid)
    ensures IsCurrent(pol, pid) <==> IsCurrent(Add(pol, e, arrival), pid)
  {
    assert forall x :: x in Members(pol) ==> x.pid in PidsOf(Members(pol));
    if pol.RoundRobin? {
      AddToRing(pol.ring, e);
    }
  }

  /** A new child that has been suspended leaves everything quiet, wherever the policy puts it. */
  lemma AddKeepsQuiet(pol: Policy, prio: map<int, Priority>, e: Entry, arrival: int)
    requires WellFormed(pol) && Quiet(pol, prio) && CanAdd(pol) && e.pid !in prio
    ensures WellFormed(Add(pol, e, arrival))
    ensures Quiet(Add(pol, e, arrival), Suspended(prio[e.pid := High], e.pid))
    ensures Members(Add(pol, e, arrival)) == MembersAfterAdd(pol, e, arrival)
  {
    AddKeepsWellFormed(pol, e, arrival);
    forall p | p in prio || (!pol.RoundRobin? && p == e.pid)
      ensures IsCurrent(pol, p) <==> IsCurrent(Add(pol, e, arrival), p)
    {
      AddKeepsCurrent(pol, e, arrival, p);
    }
    CurrentIsMember(pol);
    assert Current(pol).Some? ==> Current(pol).value.pid in PidsOf(Members(pol));
    ForkKeepsQuiet(pol, Add(pol, e, arrival), prio, e.pid);
  }

  lemma ForkKeepsQuiet(pol: Policy, pol': Policy, prio: map<int, Priority>, pid: int)
    requires Quiet(pol, prio) && pid !in prio
    requires PidsOf(Members(pol')) == PidsOf(Members(pol)) + {pid}
    requires forall p :: p in prio ==> (IsCurrent(pol, p) <==> IsCurrent(pol', p))
    requires pol.RoundRobin? <==> pol'.RoundRobin?
    requires !pol.RoundRobin? ==> !IsCurrent(pol', pid)
    ensures Quiet(pol', Suspended(prio[pid := High], pid))
  {
  }

  lemma AddToPsjf(s: P.PsjfState, e: Entry, arrival: int)
    requires DistinctPids(s.heap) && P.CanAdd(s) && e.pid !in PidsOf(s.heap)
    ensures DistinctPids(P.Added(s, e, arrival).heap)
    ensures PidsOf(P.Added(s, e, arrival).heap) == PidsOf(s.heap) + {e.pid}
  {
    var a, c := s.active.value, P.Charged(s, arrival);
    assert forall x :: x in s.heap ==> x.pid in PidsOf(s.heap);
    PidsWithout(s.heap, a);
    PidsWith(s.heap - {a}, c);
    PidsWith(s.heap - {a} + {c}, e);
  }

  lemma AddToRing(ring: R.Ring, e: Entry)
    requires Unique(ring.pq) && forall x :: x in ring.pq ==> x.pid != e.pid
    ensures SetOf(R.Added(ring, e).pq) == SetOf(ring.pq) + {e}
    ensures Unique(R.Added(ring, e).pq)
    ensures ring.pq != [] ==> R.Added(ring, e).pq[R.Added(ring, e).cur] == ring.pq[ring.cur]
  {
    var pq := R.Added(ring, e).pq;
    if ring.pq != [] {
      assert forall j :: 0 <= j < |pq| ==>
          pq[j] == if j < ring.cur then ring.pq[j] else if j == ring.cur then e else ring.pq[j - 1];
      forall j | 0 <= j < |ring.pq| ensures ring.pq[j] in pq {
        assert ring.pq[j] == pq[if j < ring.cur then j else j + 1];
      }
      assert e == pq[ring.cur];
    }
  }

  /** The end of a slice leaves the old process High and remembers it as the previous one. */
  lemma SliceGetsReady(ring: R.Ring, prio: map<int, Priority>)
    requires WellFormed(RoundRobin(ring)) && Settled(RoundRobin(ring), prio)
    ensures WellFormed(RoundRobin(R.SliceOver(ring))) && Ready(RoundRobin(R.SliceOver(ring)), prio)
    ensures Members(RoundRobin(R.SliceOver(ring))) == Members(RoundRobin(ring))
  {
  }

  /** When the High child exits, the process the policy removes is that child. */
  lemma RemoveKeepsQuiet(pol: Policy, prio: map<int, Priority>)
    requires WellFormed(pol) && Settled(pol, prio) && Current(pol).Some? && CanRemove(pol)
    ensures WellFormed(Remove(pol)) && Quiet(Remove(pol), prio - {Current(pol).value.pid})
    ensures Members(Remove(pol)) == Members(pol) - {Current(pol).value}
  {
    var e := Current(pol).value;
    CurrentIsMember(pol);
    if pol.RoundRobin? {
      SetWithoutAt(pol.ring.pq, pol.ring.cur);
    }
    PidsWithout(Members(pol), e);
  }

  lemma RingSwitchSettles(pol: Policy, prio: map<int, Priority>)
    requires WellFormed(pol) && Ready(pol, prio) && CanSwitch(pol) && pol.RoundRobin?
    ensures WellFormed(Switch(pol)) && Settled(Switch(pol), SwitchPriorities(pol, prio))
    ensures Members(Switch(pol)) == Members(pol)
  {
    assert forall x :: x in Members(pol) ==> x.pid in prio;
  }

  lemma SjfSwitchSettles(pol: Policy, prio: map<int, Priority>)
    requires WellFormed(pol) && Ready(pol, prio) && CanSwitch(pol) && pol.Sjf?
    ensures WellFormed(Switch(pol)) && Settled(Switch(pol), SwitchPriorities(pol, prio))
    ensures Members(Switch(pol)) == Members(pol)
  {
    assert forall x :: x in Members(pol) ==> x.pid in prio;
  }

  lemma PsjfSwitchSettles(pol: Policy, prio: map<int, Priority>)
    requires WellFormed(pol) && Ready(pol, prio) && CanSwitch(pol) && pol.Psjf?
    ensures WellFormed(Switch(pol)) && Settled(Switch(pol), SwitchPriorities(pol, prio))
    ensures Members(Switch(pol)) == Members(pol)
  {
    assert forall x :: x in Members(pol) ==> x.pid in prio;
  }

  /** After a context switch exactly one process is High, even though round robin may have suspended a
      stale position first. */
  lemma SwitchSettles(pol: Policy, prio: map<int, Priority>)
    requires WellFormed(pol) && Ready(pol, prio) && CanSwitch(pol)
    ensures WellFormed(Switch(pol)) && Settled(Switch(pol), SwitchPriorities(pol, prio))
    ensures Members(Switch(pol)) == Members(pol)
  {
    match pol
    case RoundRobin(_) => RingSwitchSettles(pol, prio);
    case Sjf(_) => SjfSwitchSettles(pol, prio);
    case Psjf(_) => PsjfSwitchSettles(pol, prio);
  }

  lemma EmptyExactly(pol: Policy)
    requires WellFormed(pol)
    ensures Empty(pol) <==> Members(pol) == {}
  {
    if pol.RoundRobin? {
      R.EmptyExactly(pol.ring);
      if pol.ring.pq != [] {
        assert pol.ring.pq[0] in Members(pol);
      }
    } else if pol.Sjf? && pol.sjf.active.Some? {
      assert pol.sjf.active.value in Members(pol);
    }
  }
}
