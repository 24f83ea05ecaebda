/** The event ring, the other way round: the controller produces, `poll` consumes, and there is no Link entry. */
module XhciEvents {
  import opened Common
  import opened XhciRing

  /** Both ends, with everything ever posted and everything ever polled. */
  datatype Events = Events(mem: seq<Trb>, pidx: nat, pcycle: bool, idx: nat, cycle: bool, posted: seq<Trb>,
    polled: seq<Trb>)

  datatype EStep = Post(trb: Trb) | Poll

  predicate EShape(s: Events) { |s.mem| == RING_TRBS && s.pidx < RING_TRBS && s.idx < RING_TRBS }

  /** Position and cycle state after one entry. */
  function Bump(idx: nat, cycle: bool): (nat, bool) {
    if idx + 1 == RING_TRBS then (0, !cycle) else (idx + 1, cycle)
  }

  /** `poll` sees an entry when its cycle bit is the expected one. */
  predicate Pending(s: Events)
    requires EShape(s)
  {
    s.mem[s.idx].cycle == s.cycle
  }

  function ENext(s: Events, step: EStep): Events
    requires EShape(s)
  {
    match step
    case Post(t) =>
      s.(mem := s.mem[s.pidx := t.(cycle := s.pcycle)], pidx := Bump(s.pidx, s.pcycle).0, pcycle :=
         Bump(s.pidx, s.pcycle).1, posted := s.posted + [t])
    case Poll =>
      if Pending(s) then s.(idx := Bump(s.idx, s.cycle).0, cycle := Bump(s.idx, s.cycle).1, polled :=
        s.polled + [s.mem[s.idx]]) else s
  }

  function EStart(): Events { Events(seq(RING_TRBS, _ => BLANK), 0, true, 0, true, [], []) }

  function Total(at: Place): nat { RING_TRBS * at.lap + at.idx }

  ghost predicate ESlotOk(s: Events, at: Place, i: nat)
    requires EShape(s) && i < RING_TRBS && |s.posted| == Total(at)
  {
    if i < at.idx then s.mem[i] == s.posted[RING_TRBS * at.lap + i].(cycle := Par(at.lap))
    else if at.lap > 0 then s.mem[i] == s.posted[RING_TRBS * (at.lap - 1) + i].(cycle := !Par(at.lap))
    else s.mem[i].cycle == !Par(at.lap)
  }

  ghost predicate EInv(s: Events, at: Place, from: Place) {
    && EShape(s) && at.idx == s.pidx && s.pcycle == Par(at.lap) && |s.posted| == Total(at)
    && from.idx == s.idx && s.cycle == Par(from.lap) && |s.polled| == Total(from)
    && Ahead(at, from) && SameItems(s.polled, s.posted)
    && (forall i :: 0 <= i < RING_TRBS ==> ESlotOk(s, at, i))
  }

  function EForward(at: Place): Place {
    if at.idx + 1 == RING_TRBS then Place(at.lap + 1, 0) else Place(at.lap, at.idx + 1)
  }

  /** The controller overwrites no entry the driver has yet to poll. */
  predicate ERoom(at: Place, from: Place) { at.lap == from.lap || at.idx < from.idx }

  lemma PostSlots(s: Events, at: Place, t: Trb, i: nat)
    requires EShape(s) && at.idx == s.pidx && s.pcycle == Par(at.lap) && |s.posted| == Total(at) && i < RING_TRBS
             && ESlotOk(s, at, i)
    ensures EShape(ENext(s, Post(t))) && |s.posted + [t]| == Total(EForward(at))
            && ESlotOk(ENext(s, Post(t)), EForward(at), i)
  {
  }

  lemma PostKeeps(s: Events, at: Place, from: Place, t: Trb)
    requires EInv(s, at, from) && ERoom(at, from)
    ensures EInv(ENext(s, Post(t)), EForward(at), from)
  {
    var s' := ENext(s, Post(t));
    forall i | 0 <= i < RING_TRBS ensures ESlotOk(s', EForward(at), i) { PostSlots(s, at, t, i); }
  }

  /** `poll` returns the oldest unread entry if there is one, and nothing otherwise. */
  lemma PollFinds(s: Events, at: Place, from: Place)
    requires EInv(s, at, from)
    ensures Pending(s) <==> |s.polled| < |s.posted|
    ensures Pending(s) ==> s.mem[s.idx] == s.posted[|s.polled|].(cycle := s.cycle)
  {
    assert ESlotOk(s, at, from.idx);
  }

  lemma PollKeeps(s: Events, at: Place, from: Place)
    requires EInv(s, at, from)
    ensures EInv(ENext(s, Poll), at, if Pending(s) then EForward(from) else from)
  {
    PollFinds(s, at, from);
    var s' := ENext(s, Poll);
    forall i | 0 <= i < RING_TRBS ensures ESlotOk(s', at, i) { assert ESlotOk(s, at, i); }
  }

  ghost predicate ERunStep(s: Events, s': Events, step: EStep, at: Place, at': Place, from: Place, from': Place) {
    && EShape(s) && s' == ENext(s, step)
    && match step
       case Post(t) => ERoom(at, from) && at' == EForward(at) && from' == from
       case Poll => at' == at && from' == if Pending(s) then EForward(from) else from
  }

  /** A run in which the controller never overwrites an entry that is still unread. */
  ghost predicate IsERun(ss: seq<Events>, steps: seq<EStep>, ats: seq<Place>, froms: seq<Place>) {
    && |ss| == |ats| == |froms| == |steps| + 1
    && ss[0] == EStart() && ats[0] == Place(0, 0) && froms[0] == Place(0, 0)
    && forall i :: 0 <= i < |steps| ==> ERunStep(ss[i], ss[i + 1], steps[i], ats[i], ats[i + 1], froms[i], froms[i + 1])
  }

  /** In every state of every such run `poll` has returned every event exactly once and in order. */
  lemma {:induction false} EventsExactlyOnce(ss: seq<Events>, steps: seq<EStep>, ats: seq<Place>, froms: seq<Place>,
                                             i: nat)
    requires IsERun(ss, steps, ats, froms) && i < |ss|
    ensures EInv(ss[i], ats[i], froms[i])
    ensures SameItems(ss[i].polled, ss[i].posted) && |ss[i].posted| - |ss[i].polled| <= RING_TRBS
    ensures Pending(ss[i]) <==> |ss[i].polled| < |ss[i].posted|
  {
    if i > 0 {
      var j: nat := i - 1;
      EventsExactlyOnce(ss, steps, ats, froms, j);
      assert ERunStep(ss[j], ss[j + 1], steps[j], ats[j], ats[j + 1], froms[j], froms[j + 1]);
      match steps[j] {
        case Post(t) => PostKeeps(ss[j], ats[j], froms[j], t);
        case Poll => PollKeeps(ss[j], ats[j], froms[j]);
      }
    }
    PollFinds(ss[i], ats[i], froms[i]);
  }

  /** The driver's end: its position, its cycle state and the dequeue pointer it last told the controller. */
  class EventRing {
    const mem: array<Trb>
    const phys: nat
    var idx: nat
    var cycle: bool
    var dequeue: nat

    constructor (mem: array<Trb>, phys: nat)
      ensures this.mem == mem && this.phys == phys && idx == 0 && cycle
    {
      this.mem, this.phys, idx, cycle, dequeue := mem, phys, 0, true, phys;
    }

    /** The driver's end of this state of the machine. */
    ghost predicate Views(s: Events)
      reads this, mem
    {
      EShape(s) && s.mem == mem[..] && s.idx == idx && s.cycle == cycle
    }

    /** `EventRing::poll` is the machine's poll step: it returns what that step takes, and hands the slot back. */
    method PollTrb(ghost s: Events) returns (r: Option<Trb>)
      requires Views(s)
      modifies this
      ensures Views(ENext(s, Poll))
      ensures ENext(s, Poll).polled == if r.Some? then s.polled + [r.value] else s.polled
      ensures r.Some? <==> Pending(s)
      ensures dequeue == if r.Some? then phys + 16 * idx else old(dequeue)
    {
      var t := mem[idx];
      if t.cycle != cycle { return None; }
      idx := idx + 1;
      if idx == RING_TRBS {
        idx, cycle := 0, !cycle;
      }
      dequeue := phys + 16 * idx;
      return Some(t);
    }
  }
}
