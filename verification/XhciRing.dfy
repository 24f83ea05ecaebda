/** The cycle-bit transfer ring: the driver produces, the controller consumes, and a Link entry closes the circle. */
module XhciRing {
  import opened Common

  /** Entries in a ring, the last of which is the Link. */
  const RING_TRBS: nat := 256
  const SLOTS: nat := 255

  /** A transfer request block; `control` is its last word without the cycle bit. */
  datatype Trb = Trb(words: (nat, nat, nat), control: nat, cycle: bool)

  /** The type field of the last word names a Link entry. */
  predicate IsLink(t: Trb) { t.control / 512 % 64 == 6 }

  /** The toggle-cycle flag of a Link entry. */
  predicate Toggles(t: Trb) { t.control % 2 == 1 }

  const BLANK: Trb := Trb((0, 0, 0), 0, false)

  /** `(TRB_LINK << 10) | (1 << 1) | 1`, pointing back to the start. */
  function FirstLink(phys: nat): Trb { Trb((phys % 0x1_0000_0000, phys / 0x1_0000_0000, 0), 6 * 512 + 1, true) }

  // ---------------------------------------------------------------- the two ends

  /** The driver's end: the ring memory, where it writes next, and its cycle state. */
  datatype Producer = Producer(mem: seq<Trb>, idx: nat, cycle: bool)

  /** The controller's end (sections 4.9.2 and 4.9.3 of the xHCI specification). */
  datatype Consumer = Consumer(idx: nat, cycle: bool)

  predicate Shape(p: Producer) { |p.mem| == RING_TRBS && p.idx < SLOTS }

  /** `push`: stamp the entry with the cycle state; after the last slot, stamp the Link, go back and flip. */
  function Push(p: Producer, t: Trb): Producer
    requires Shape(p)
  {
    var mem := p.mem[p.idx := t.(cycle := p.cycle)];
    if p.idx + 1 == SLOTS then Producer(mem[SLOTS := mem[SLOTS].(cycle := p.cycle)], 0, !p.cycle)
    else Producer(mem, p.idx + 1, p.cycle)
  }

  /** What the controller finds where it stands. */
  datatype Found = Nothing | Jump | Item(trb: Trb)

  function Look(mem: seq<Trb>, c: Consumer): Found
    requires c.idx < |mem|
  {
    var t := mem[c.idx];
    if t.cycle != c.cycle then Nothing else if IsLink(t) then Jump else Item(t)
  }

  /** The controller's next position: past an item, or back to the start through the Link. */
  function Advance(mem: seq<Trb>, c: Consumer): Consumer
    requires c.idx < |mem|
  {
    match Look(mem, c)
    case Nothing => c
    case Jump => Consumer(0, if Toggles(mem[c.idx]) then !c.cycle else c.cycle)
    case Item(_) => c.(idx := c.idx + 1)
  }

  // ---------------------------------------------------------------- runs

  /** Both ends, with everything ever pushed and everything ever read. */
  datatype State = State(prod: Producer, cons: Consumer, sent: seq<Trb>, got: seq<Trb>)

  datatype Step = PushStep(trb: Trb) | ReadStep

  function Start(phys: nat): State {
    State(Producer(seq(SLOTS, _ => BLANK) + [FirstLink(phys)], 0, true), Consumer(0, true), [], [])
  }

  function Next(s: State, step: Step): State
    requires Shape(s.prod) && s.cons.idx < RING_TRBS
  {
    match step
    case PushStep(t) => s.(prod := Push(s.prod, t), sent := s.sent + [t])
    case ReadStep =>
      var f := Look(s.prod.mem, s.cons);
      s.(cons := Advance(s.prod.mem, s.cons), got := if f.Item? then s.got + [f.trb] else s.got)
  }

  /** Lap numbers alternate between the two cycle values, starting with 1. */
  predicate Par(lap: nat) { lap % 2 == 0 }

  /** Where an end stands, as a lap and a slot; slot `SLOTS` is the Link. */
  datatype Place = Place(lap: nat, idx: nat) {
    function Count(): nat { SLOTS * lap + idx }
  }

  /** The entry that slot `i` must hold when the producer stands at `at`. */
  ghost predicate SlotOk(s: State, at: Place, i: nat)
    requires Shape(s.prod) && i < SLOTS && |s.sent| == at.Count()
  {
    if i < at.idx then s.prod.mem[i] == s.sent[SLOTS * at.lap + i].(cycle := Par(at.lap))
    else if at.lap > 0 then s.prod.mem[i] == s.sent[SLOTS * (at.lap - 1) + i].(cycle := !Par(at.lap))
    else s.prod.mem[i].cycle == !Par(at.lap)
  }

  /** The producer is on the consumer's lap and not behind it, or one lap on and not past it. */
  predicate Ahead(at: Place, from: Place) {
    (at.lap == from.lap && from.idx <= at.idx) || (at.lap == from.lap + 1 && at.idx <= from.idx)
  }

  /** The entries read are the entries sent, up to the cycle bit. */
  ghost predicate SameItems(got: seq<Trb>, sent: seq<Trb>) {
    |got| <= |sent| && forall i :: 0 <= i < |got| ==> got[i].words == sent[i].words && got[i].control == sent[i].control
  }

  ghost predicate LinkOk(s: State, at: Place)
    requires Shape(s.prod)
  {
    var link := s.prod.mem[SLOTS];
    IsLink(link) && Toggles(link) && (at.lap > 0 ==> link.cycle == !Par(at.lap))
  }

  ghost predicate Inv(s: State, at: Place, from: Place) {
    && Shape(s.prod) && at.idx == s.prod.idx && s.prod.cycle == Par(at.lap) && |s.sent| == at.Count()
    && from.idx == s.cons.idx && from.idx <= SLOTS && s.cons.cycle == Par(from.lap) && |s.got| == from.Count()
    && Ahead(at, from)
    && (forall i :: 0 <= i < SLOTS ==> SlotOk(s, at, i))
    && LinkOk(s, at)
    && SameItems(s.got, s.sent) && (forall i :: 0 <= i < |s.sent| ==> !IsLink(s.sent[i]))
  }

  lemma StartOk(phys: nat)
    ensures Inv(Start(phys), Place(0, 0), Place(0, 0))
  {
  }

  // ---------------------------------------------------------------- pushing

  /** The push overwrites no entry, Link included, that the consumer has yet to read. */
  predicate Room(at: Place, from: Place) {
    at.lap == from.lap || (at.idx < from.idx && at.idx + 1 < SLOTS)
  }

  function Forward(at: Place): Place {
    if at.idx + 1 == SLOTS then Place(at.lap + 1, 0) else Place(at.lap, at.idx + 1)
  }

  lemma PushSlots(s: State, at: Place, t: Trb, i: nat)
    requires Shape(s.prod) && at.idx == s.prod.idx && s.prod.cycle == Par(at.lap) && |s.sent| == at.Count() && i < SLOTS
             && SlotOk(s, at, i)
    ensures Shape(Push(s.prod, t)) && |s.sent + [t]| == Forward(at).Count()
            && SlotOk(Next(s.(cons := Consumer(0, true)), PushStep(t)), Forward(at), i)
  {
  }

  /** Pushing where there is room keeps everything in place. */
  lemma PushKeeps(s: State, at: Place, from: Place, t: Trb)
    requires Inv(s, at, from) && !IsLink(t) && Room(at, from)
    ensures Inv(Next(s, PushStep(t)), Forward(at), from)
  {
    var s' := Next(s, PushStep(t));
    forall i | 0 <= i < SLOTS ensures SlotOk(s', Forward(at), i) { PushSlots(s, at, t, i); }
  }

  // ---------------------------------------------------------------- reading

  /** Where the consumer stands after looking. */
  function Onward(at: Place, from: Place): Place {
    if from.idx == SLOTS then Place(from.lap + 1, 0)
    else if from.Count() < at.Count() then Place(from.lap, from.idx + 1)
    else from
  }

  /** The controller finds the next unread entry if there is one, and nothing otherwise. */
  lemma LookFinds(s: State, at: Place, from: Place)
    requires Inv(s, at, from) && from.idx < SLOTS
    ensures |s.got| < |s.sent| ==> Look(s.prod.mem, s.cons) == Item(s.sent[|s.got|].(cycle := Par(from.lap)))
    ensures |s.got| == |s.sent| ==> Look(s.prod.mem, s.cons) == Nothing
  {
    assert SlotOk(s, at, from.idx);
    if |s.got| < |s.sent| { assert !IsLink(s.sent[|s.got|]); }
  }

  /** In front of the Link the controller always finds it ready. */
  lemma LinkReady(s: State, at: Place, from: Place)
    requires Inv(s, at, from) && from.idx == SLOTS
    ensures at.lap == from.lap + 1 && Look(s.prod.mem, s.cons) == Jump
            && Advance(s.prod.mem, s.cons) == Consumer(0, Par(from.lap + 1))
  {
  }

  lemma ReadKeeps(s: State, at: Place, from: Place)
    requires Inv(s, at, from)
    ensures Inv(Next(s, ReadStep), at, Onward(at, from))
  {
    var s' := Next(s, ReadStep);
    if from.idx == SLOTS {
      LinkReady(s, at, from);
    } else {
      LookFinds(s, at, from);
      if |s.got| < |s.sent| { assert s'.got == s.got + [s.sent[|s.got|].(cycle := Par(from.lap))]; }
    }
    forall i | 0 <= i < SLOTS ensures SlotOk(s', at, i) { assert SlotOk(s, at, i); }
  }

  // ---------------------------------------------------------------- whole runs

  /** A run in which every push finds room; `ats` and `froms` are where the two ends stand. */
  ghost predicate IsRun(phys: nat, ss: seq<State>, steps: seq<Step>, ats: seq<Place>, froms: seq<Place>) {
    && |ss| == |ats| == |froms| == |steps| + 1
    && ss[0] == Start(phys) && ats[0] == Place(0, 0) && froms[0] == Place(0, 0)
    && forall i :: 0 <= i < |steps| ==> RunStep(ss[i], ss[i + 1], steps[i], ats[i], ats[i + 1], froms[i], froms[i + 1])
  }

  ghost predicate RunStep(s: State, s': State, step: Step, at: Place, at': Place, from: Place, from': Place) {
    && Shape(s.prod) && s.cons.idx < RING_TRBS && s' == Next(s, step)
    && match step
       case PushStep(t) => !IsLink(t) && Room(at, from) && at' == Forward(at) && from' == from
       case ReadStep => at' == at && from' == Onward(at, from)
  }

  lemma {:induction false} RunKeeps(phys: nat, ss: seq<State>, steps: seq<Step>, ats: seq<Place>, froms: seq<Place>,
                                    i: nat)
    requires IsRun(phys, ss, steps, ats, froms) && i < |ss|
    ensures Inv(ss[i], ats[i], froms[i])
  {
    if i == 0 {
      StartOk(phys);
    } else {
      var j: nat := i - 1;
      RunKeeps(phys, ss, steps, ats, froms, j);
      assert RunStep(ss[j], ss[j + 1], steps[j], ats[j], ats[j + 1], froms[j], froms[j + 1]);
      match steps[j] {
        case PushStep(t) => PushKeeps(ss[j], ats[j], froms[j], t);
        case ReadStep => ReadKeeps(ss[j], ats[j], froms[j]);
      }
    }
  }

  /**
   Exactly once and in order, across any number of wraps: in every state what was read is a prefix of what was sent.
   */
  lemma ExactlyOnce(phys: nat, ss: seq<State>, steps: seq<Step>, ats: seq<Place>, froms: seq<Place>, i: nat)
    requires IsRun(phys, ss, steps, ats, froms) && i < |ss|
    ensures SameItems(ss[i].got, ss[i].sent) && |ss[i].sent| - |ss[i].got| <= SLOTS
  {
    RunKeeps(phys, ss, steps, ats, froms, i);
  }

  /** Nothing is missed: while something is unread, one look, or two across the Link, reads the next entry. */
  lemma NextIsRead(phys: nat, ss: seq<State>, steps: seq<Step>, ats: seq<Place>, froms: seq<Place>, i: nat)
    requires IsRun(phys, ss, steps, ats, froms) && i < |ss| && |ss[i].got| < |ss[i].sent|
    ensures Shape(ss[i].prod) && ss[i].cons.idx < RING_TRBS
    ensures var once := Next(ss[i], ReadStep);
            && once.cons.idx < RING_TRBS
            && (|once.got| == |ss[i].got| + 1 || |Next(once, ReadStep).got| == |ss[i].got| + 1)
  {
    RunKeeps(phys, ss, steps, ats, froms, i);
    var s, at, from := ss[i], ats[i], froms[i];
    ReadKeeps(s, at, from);
    if from.idx < SLOTS {
      LookFinds(s, at, from);
    } else {
      var once := Next(s, ReadStep);
      LookFinds(once, at, Onward(at, from));
    }
  }

  // ---------------------------------------------------------------- lapping

  /**
   Without room a push that still has a free slot runs into the Link: the controller stalls in front of unread entries.
   */
  lemma LinkLapped(s: State, at: Place, from: Place, t: Trb)
    requires Inv(s, at, from) && !IsLink(t) && at.lap == from.lap + 1 && at.idx + 1 == SLOTS && from.idx == SLOTS
    ensures var s' := Next(s, PushStep(t));
            |s'.got| < |s'.sent| && Look(s'.prod.mem, s'.cons) == Nothing && Next(s', ReadStep) == s'
  {
  }

  /** A push that overwrites an unread entry loses it: the entry the controller should read next is replaced. */
  lemma SlotLapped(s: State, at: Place, from: Place, t: Trb)
    requires Inv(s, at, from) && !IsLink(t) && at.lap == from.lap + 1 && at.idx == from.idx
    ensures |s.got| < |s.sent| && Look(Next(s, PushStep(t)).prod.mem, s.cons) == Nothing
  {
  }

  /** The entry the controller comes to next: where it stands, or one look further through the Link. */
  function Upcoming(mem: seq<Trb>, c: Consumer): Option<Trb>
    requires c.idx < |mem|
  {
    match Look(mem, c)
    case Nothing => None
    case Item(t) => Some(t)
    case Jump =>
      var c' := Advance(mem, c);
      if c'.idx < |mem| && Look(mem, c').Item? then Some(Look(mem, c').trb) else None
  }

  /** The controller will come to the oldest unread entry. */
  predicate OnTrack(s: State)
    requires s.cons.idx < |s.prod.mem|
  {
    var next := Upcoming(s.prod.mem, s.cons);
    |s.got| < |s.sent| && next.Some? && next.value.words == s.sent[|s.got|].words
      && next.value.control == s.sent[|s.got|].control
  }

  lemma OnTrackWithRoom(s: State, at: Place, from: Place)
    requires Inv(s, at, from) && |s.got| < |s.sent|
    ensures OnTrack(s)
  {
    if from.idx < SLOTS {
      LookFinds(s, at, from);
    } else {
      LinkReady(s, at, from);
      ReadKeeps(s, at, from);
      LookFinds(Next(s, ReadStep), at, Onward(at, from));
    }
  }

  /** After a push the controller still comes to the oldest unread entry if and only if there was room. */
  lemma RoomExactly(s: State, at: Place, from: Place, t: Trb)
    requires Inv(s, at, from) && !IsLink(t)
    ensures OnTrack(Next(s, PushStep(t))) <==> Room(at, from)
    ensures Room(at, from) <==> |s.sent| - |s.got| < SLOTS && !(from.idx == SLOTS && at.idx + 1 == SLOTS)
  {
    if Room(at, from) {
      PushKeeps(s, at, from, t);
      OnTrackWithRoom(Next(s, PushStep(t)), Forward(at), from);
    } else if at.idx == from.idx {
      SlotLapped(s, at, from, t);
    } else {
      LinkLapped(s, at, from, t);
    }
  }

  /** Keeping one slot open is enough: fewer than `SLOTS - 1` unread entries always leave room. */
  lemma RoomEnough(at: Place, from: Place)
    requires Ahead(at, from) && at.idx < SLOTS && from.idx <= SLOTS && at.Count() - from.Count() < SLOTS - 1
    ensures Room(at, from)
  {
  }

  // ---------------------------------------------------------------- a run that stalls

  /** A run with everything that belongs to it. */
  datatype Trace = Trace(ss: seq<State>, steps: seq<Step>, ats: seq<Place>, froms: seq<Place>)

  ghost predicate Traced(phys: nat, r: Trace, at: Place, from: Place) {
    && IsRun(phys, r.ss, r.steps, r.ats, r.froms)
    && r.ats[|r.steps|] == at && r.froms[|r.steps|] == from
  }

  lemma Extend(phys: nat, r: Trace, at: Place, from: Place, step: Step) returns (r': Trace)
    requires Traced(phys, r, at, from)
    requires step.PushStep? ==> !IsLink(step.trb) && Room(at, from)
    ensures step.PushStep? ==> Traced(phys, r', Forward(at), from)
    ensures step.ReadStep? ==> Traced(phys, r', at, Onward(at, from))
  {
    var n := |r.steps|;
    RunKeeps(phys, r.ss, r.steps, r.ats, r.froms, n);
    var at', from' := if step.PushStep? then Forward(at) else at, if step.PushStep? then from else Onward(at, from);
    r' := Trace(r.ss + [Next(r.ss[n], step)], r.steps + [step], r.ats + [at'], r.froms + [from']);
    forall i | 0 <= i < |r'.steps|
      ensures RunStep(r'.ss[i], r'.ss[i + 1], r'.steps[i], r'.ats[i], r'.ats[i + 1], r'.froms[i], r'.froms[i + 1])
    {
      if i < n { assert RunStep(r.ss[i], r.ss[i + 1], r.steps[i], r.ats[i], r.ats[i + 1], r.froms[i], r.froms[i + 1]); }
    }
  }

  /** Push up to slot `k` of the lap. */
  lemma {:induction false} PushTo(phys: nat, r: Trace, at: Place, from: Place, k: nat) returns (r': Trace)
    requires Traced(phys, r, at, from) && at.idx <= k < SLOTS && (at.lap == from.lap || k <= from.idx)
    ensures Traced(phys, r', Place(at.lap, k), from)
    decreases k - at.idx
  {
    r' := r;
    if at.idx < k {
      r' := Extend(phys, r, at, from, PushStep(BLANK));
      r' := PushTo(phys, r', Forward(at), from, k);
    }
  }

  /** Read up to slot `k` of the lap the producer has finished. */
  lemma {:induction false} ReadTo(phys: nat, r: Trace, at: Place, from: Place, k: nat) returns (r': Trace)
    requires Traced(phys, r, at, from) && from.idx <= k <= SLOTS && at.lap == from.lap + 1
    ensures Traced(phys, r', at, Place(from.lap, k))
    decreases k - from.idx
  {
    r' := r;
    if from.idx < k {
      r' := Extend(phys, r, at, from, ReadStep);
      r' := ReadTo(phys, r', at, Onward(at, from), k);
    }
  }

  /**
   The stall is real: fill the ring, read it up to the Link, and push all but one entry of the next lap. Every push so
   far had room; one more, into a free slot, and the controller finds nothing in front of 255 unread entries.
   */
  lemma StallReached(phys: nat) returns (r: Trace, s: State)
    ensures Traced(phys, r, Place(1, SLOTS - 1), Place(0, SLOTS)) && s == r.ss[|r.steps|]
    ensures Shape(s.prod) && s.cons.idx < RING_TRBS && |s.sent| - |s.got| < SLOTS
    ensures var s' := Next(s, PushStep(BLANK));
            |s'.sent| - |s'.got| == SLOTS && Look(s'.prod.mem, s'.cons) == Nothing && Next(s', ReadStep) == s'
  {
    r := Trace([Start(phys)], [], [Place(0, 0)], [Place(0, 0)]);
    r := PushTo(phys, r, Place(0, 0), Place(0, 0), SLOTS - 1);
    r := Extend(phys, r, Place(0, SLOTS - 1), Place(0, 0), PushStep(BLANK));
    r := ReadTo(phys, r, Place(1, 0), Place(0, 0), SLOTS);
    r := PushTo(phys, r, Place(1, 0), Place(0, SLOTS), SLOTS - 1);
    s := r.ss[|r.steps|];
    RunKeeps(phys, r.ss, r.steps, r.ats, r.froms, |r.steps|);
    LinkLapped(s, Place(1, SLOTS - 1), Place(0, SLOTS), BLANK);
  }

  // ---------------------------------------------------------------- the driver's code

  class Ring {
    const mem: array<Trb>
    var idx: nat
    var cycle: bool

    ghost predicate Valid()
      reads this
    {
      mem.Length == RING_TRBS && idx < SLOTS
    }

    ghost function View(): Producer
      reads this, mem
    {
      Producer(mem[..], idx, cycle)
    }

    /** `Ring::new`: zeroed memory with the Link in the last entry. */
    constructor (phys: nat)
      ensures Valid() && fresh(mem) && View() == Start(phys).prod
    {
      var m := new Trb[RING_TRBS](_ => BLANK);
      m[SLOTS] := FirstLink(phys);
      mem, idx, cycle := m, 0, true;
      new;
      assert mem[..] == seq(SLOTS, _ => BLANK) + [FirstLink(phys)];
    }

    /** `Ring::push`. */
    method PushTrb(t: Trb)
      requires Valid()
      modifies this, mem
      ensures Valid() && View() == Push(old(View()), t)
    {
      mem[idx] := t.(cycle := cycle);
      idx := idx + 1;
      if idx == SLOTS {
        mem[SLOTS] := mem[SLOTS].(cycle := cycle);
        idx, cycle := 0, !cycle;
      }
    }
  }
}
