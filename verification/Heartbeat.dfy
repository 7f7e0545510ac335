/** The hardware part of heartbeats: full information first, then what changed, and the receiver
    that merges the messages. */
module Heartbeat {
  import opened Options

  /** The hardware information that can change. */
  datatype Snapshot = Snapshot(hostname: string, interfaces: seq<string>, mounts: seq<string>)

  /** The hardware field of a message; an empty part is absent. */
  datatype Info = Info(hostname: string, interfaces: seq<string>, mounts: seq<string>, immutablePart: string)

  datatype State = State(previous: Option<Snapshot>, firstHeartbeat: bool)

  const INITIAL := State(None, true)

  /** One push: the heartbeat configuration, what the hardware reads give, and the fate of the
      message. full is what reading the complete information gives, if it is read. */
  datatype Push = Push(includeHardware: bool, delta: bool, read: Option<Snapshot>, full: Option<Info>, sent: bool)

  function MutableInfo(s: Snapshot): Info
  {
    Info(s.hostname, s.interfaces, s.mounts, "")
  }

  /** Mounts are left out even when they change. */
  function Delta(before: Snapshot, after: Snapshot): Info
  {
    Info(if before.hostname != after.hostname then after.hostname else "",
         if before.interfaces != after.interfaces then after.interfaces else [],
         [], "")
  }

  predicate Takes(p: Push)
  {
    p.includeHardware && p.read.Some?
  }

  function Message(s: State, p: Push): Option<Info>
  {
    if !Takes(p) then None
    else if s.previous.None? then p.full
    else if p.delta then Some(Delta(s.previous.value, p.read.value))
    else Some(MutableInfo(p.read.value))
  }

  function Pushed(s: State, p: Push): State
  {
    if !p.sent && s.firstHeartbeat then State(None, true)
    else State(if Takes(p) then p.read else s.previous, if p.sent then false else s.firstHeartbeat)
  }

  // ---------- The receiver ----------

  /** What the receiver believes of the device. */
  datatype Known = Known(hostname: string, interfaces: seq<string>, mounts: seq<string>)

  const NOTHING_KNOWN := Known("", [], [])

  function Merge(k: Known, info: Info): Known
  {
    Known(if info.hostname != "" then info.hostname else k.hostname,
          if info.interfaces != [] then info.interfaces else k.interfaces,
          if info.mounts != [] then info.mounts else k.mounts)
  }

  function Receive(k: Known, s: State, p: Push): Known
  {
    if p.sent && Message(s, p).Some? then Merge(k, Message(s, p).value) else k
  }

  /** It is right about hostname and interfaces. */
  predicate Tells(k: Known, s: Snapshot)
  {
    k.hostname == s.hostname && k.interfaces == s.interfaces
  }

  /** The hardware can be described and does not change within the push. */
  ghost predicate Steady(p: Push)
  {
    p.read.Some? ==>
      && p.read.value.hostname != "" && p.read.value.interfaces != []
      && p.full.Some?
      && p.full.value.hostname == p.read.value.hostname && p.full.value.interfaces == p.read.value.interfaces
      && p.full.value.mounts == p.read.value.mounts
  }

  ghost predicate IsRun(states: seq<State>, known: seq<Known>, pushes: seq<Push>)
  {
    && |states| == |known| == |pushes| + 1
    && states[0] == INITIAL && known[0] == NOTHING_KNOWN
    && forall i :: 0 <= i < |pushes| ==>
         states[i + 1] == Pushed(states[i], pushes[i]) && known[i + 1] == Receive(known[i], states[i], pushes[i])
  }

  /** Before the first successful push nothing counts as sent, so every heartbeat that includes
      readable hardware carries the full information. */
  lemma {:induction false} FullUntilFirstSuccess(states: seq<State>, known: seq<Known>, pushes: seq<Push>, i: nat)
    requires IsRun(states, known, pushes) && i <= |pushes|
    requires forall k :: 0 <= k < i ==> !pushes[k].sent
    ensures states[i] == INITIAL && known[i] == NOTHING_KNOWN
    ensures i < |pushes| && Takes(pushes[i]) ==> Message(states[i], pushes[i]) == pushes[i].full
  {
    if i > 0 {
      FullUntilFirstSuccess(states, known, pushes, i - 1);
    }
  }

  /** Push r tells the receiver all of hostname and interfaces: it is sent and its scope is full, or
      no snapshot counts as told before. */
  ghost predicate TellsAll(states: seq<State>, pushes: seq<Push>, r: nat)
    requires r < |pushes| <= |states|
  {
    pushes[r].sent && Takes(pushes[r]) && (!pushes[r].delta || states[r].previous.None?)
  }

  /** The last snapshot taken before push i, from push first on. */
  function LastTaken(pushes: seq<Push>, i: nat, first: nat): Option<Snapshot>
    requires i <= |pushes|
  {
    if i <= first then None
    else if Takes(pushes[i - 1]) then pushes[i - 1].read
    else LastTaken(pushes, i - 1, first)
  }

  lemma {:induction false} SuccessStays(states: seq<State>, known: seq<Known>, pushes: seq<Push>, first: nat, i: nat)
    requires IsRun(states, known, pushes) && first < i <= |pushes| && pushes[first].sent
    ensures !states[i].firstHeartbeat
    ensures forall k :: first <= k < i && Takes(pushes[k]) ==> states[i].previous.Some?
  {
    if i > first + 1 {
      SuccessStays(states, known, pushes, first, i - 1);
    }
  }

  /** From the first success on, while no push fails, the receiver holds the hostname and the
      interfaces of the last snapshot taken, however scope and inclusion are toggled. */
  lemma {:induction false} DeltasRebuildDevice(states: seq<State>, known: seq<Known>, pushes: seq<Push>,
                                               first: nat, i: nat)
    requires IsRun(states, known, pushes) && first < i <= |pushes|
    requires forall k :: 0 <= k < |pushes| ==> Steady(pushes[k])
    requires forall k :: 0 <= k < first ==> !pushes[k].sent
    requires forall k :: first <= k < |pushes| ==> pushes[k].sent
    ensures !states[i].firstHeartbeat && states[i].previous == LastTaken(pushes, i, first)
    ensures LastTaken(pushes, i, first).Some? ==> Tells(known[i], LastTaken(pushes, i, first).value)
  {
    if i == first + 1 {
      FullUntilFirstSuccess(states, known, pushes, first);
      assert LastTaken(pushes, first, first) == None;
    } else {
      DeltasRebuildDevice(states, known, pushes, first, i - 1);
    }
    assert Steady(pushes[i - 1]);
  }

  /** Whatever was lost before, one push with full scope puts the receiver right about hostname and
      interfaces, and it stays right while no later push fails. */
  lemma {:induction false} FullScopeRepairs(states: seq<State>, known: seq<Known>, pushes: seq<Push>, r: nat, i: nat)
    requires IsRun(states, known, pushes) && r < i <= |pushes| && TellsAll(states, pushes, r)
    requires forall k :: r <= k < i ==> Steady(pushes[k]) && pushes[k].sent
    ensures LastTaken(pushes, i, r).Some? && states[i].previous == LastTaken(pushes, i, r)
    ensures Tells(known[i], LastTaken(pushes, i, r).value)
  {
    if i > r + 1 {
      FullScopeRepairs(states, known, pushes, r, i - 1);
    }
    assert Steady(pushes[i - 1]);
  }

  /** The same hostname and interfaces as in a snapshot, told in deltas only. */
  ghost predicate OnlyDeltasOf(pushes: seq<Push>, i: nat, j: nat, s: Snapshot)
    requires j <= |pushes|
  {
    forall k :: i <= k < j && Takes(pushes[k]) ==>
      && pushes[k].delta
      && pushes[k].read.value.hostname == s.hostname && pushes[k].read.value.interfaces == s.interfaces
  }

  /** A push that fails after the first success loses the change it carried: for as long as the
      hardware then stays the same and only deltas are sent, whether or not they arrive, the
      receiver is right exactly when there was no change to lose. */
  lemma {:induction false} LostUntilFullScope(states: seq<State>, known: seq<Known>, pushes: seq<Push>, i: nat, j: nat)
    requires IsRun(states, known, pushes) && i < j <= |pushes|
    requires !states[i].firstHeartbeat && states[i].previous.Some? && Tells(known[i], states[i].previous.value)
    requires Takes(pushes[i]) && !pushes[i].sent
    requires OnlyDeltasOf(pushes, i + 1, j, pushes[i].read.value)
    ensures states[j].previous.Some? && known[j] == known[i] && !states[j].firstHeartbeat
    ensures var now, before, read := states[j].previous.value, states[i].previous.value, pushes[i].read.value;
            && now.hostname == read.hostname && now.interfaces == read.interfaces
            && (Tells(known[j], now) <==> read.hostname == before.hostname && read.interfaces == before.interfaces)
  {
    if j > i + 1 {
      LostUntilFullScope(states, known, pushes, i, j - 1);
    }
  }

  /** Mounts are told in full scope only: while deltas follow, whether or not they arrive, the receiver
      is right about the mounts of the last snapshot taken if and only if they are still those that
      were told. */
  lemma {:induction false} MountsOnlyInFullScope(states: seq<State>, known: seq<Known>, pushes: seq<Push>,
                                                 r: nat, i: nat)
    requires IsRun(states, known, pushes) && r < i <= |pushes| && TellsAll(states, pushes, r)
    requires Steady(pushes[r]) && pushes[r].read.value.mounts != []
    requires forall k :: r < k < i && Takes(pushes[k]) ==> pushes[k].delta
    ensures states[i].previous.Some? && states[i].previous == LastTaken(pushes, i, r) && !states[i].firstHeartbeat
    ensures known[i].mounts == LastTaken(pushes, i, r).value.mounts <==>
            LastTaken(pushes, i, r).value.mounts == pushes[r].read.value.mounts
    ensures known[i].mounts == pushes[r].read.value.mounts
  {
    if i > r + 1 {
      MountsOnlyInFullScope(states, known, pushes, r, i - 1);
    }
  }

  /** The last interface is never told to be gone: while none is there, whatever the scope, the
      receiver keeps those it knew, and is right if and only if it knew none. */
  lemma {:induction false} NoInterfacesAreNeverTold(states: seq<State>, known: seq<Known>, pushes: seq<Push>,
                                                    i: nat, j: nat)
    requires IsRun(states, known, pushes) && i < j <= |pushes| && Takes(pushes[i])
    requires forall k :: i <= k < j && Takes(pushes[k]) ==>
               && pushes[k].read.value.interfaces == []
               && (pushes[k].full.Some? ==> pushes[k].full.value.interfaces == [])
    ensures LastTaken(pushes, j, i).Some? && known[j].interfaces == known[i].interfaces
    ensures known[j].interfaces == LastTaken(pushes, j, i).value.interfaces <==> known[i].interfaces == []
  {
    if j > i + 1 {
      NoInterfacesAreNeverTold(states, known, pushes, i, j - 1);
    }
  }

  predicate HasImmutablePart(message: Option<Info>)
  {
    message.Some? && message.value.immutablePart != ""
  }

  /** Once a push with readable hardware was tried after the first success, no later message
      carries the immutable part. */
  lemma LaterMessagesAreMutable(states: seq<State>, known: seq<Known>, pushes: seq<Push>, first: nat, t: nat, k: nat)
    requires IsRun(states, known, pushes) && first <= t < k < |pushes|
    requires pushes[first].sent && Takes(pushes[t])
    ensures !HasImmutablePart(Message(states[k], pushes[k]))
  {
    SuccessStays(states, known, pushes, first, k);
  }

  /** The immutable part is sent at most by one push: the first one from the first success on with
      readable hardware. The receiver gets it if and only if that push arrives with it. */
  lemma FullInformationCanBeLost(states: seq<State>, known: seq<Known>, pushes: seq<Push>, first: nat, t: nat)
    requires IsRun(states, known, pushes) && first <= t < |pushes|
    requires pushes[first].sent && forall k :: 0 <= k < first ==> !pushes[k].sent
    requires Takes(pushes[t]) && forall k :: first <= k < t ==> !Takes(pushes[k])
    ensures (exists k :: 0 <= k < |pushes| && pushes[k].sent && HasImmutablePart(Message(states[k], pushes[k]))) <==>
            pushes[t].sent && HasImmutablePart(pushes[t].full)
  {
    NothingTakenYet(states, known, pushes, first, t);
    assert Message(states[t], pushes[t]) == pushes[t].full;
    forall k | 0 <= k < |pushes| && k != t && pushes[k].sent
      ensures !HasImmutablePart(Message(states[k], pushes[k]))
    {
      if k > t {
        LaterMessagesAreMutable(states, known, pushes, first, t, k);
      }
    }
  }

  lemma {:induction false} NothingTakenYet(states: seq<State>, known: seq<Known>, pushes: seq<Push>, first: nat, t: nat)
    requires IsRun(states, known, pushes) && first <= t < |pushes|
    requires forall k :: 0 <= k < first ==> !pushes[k].sent
    requires forall k :: first <= k < t ==> !Takes(pushes[k])
    ensures states[t].previous.None?
  {
    if t == first {
      FullUntilFirstSuccess(states, known, pushes, first);
    } else {
      NothingTakenYet(states, known, pushes, first, t - 1);
    }
  }

  /** Losing it for good does happen: a heartbeat without hardware is sent, the next one, with the
      full information, fails, and however many follow, none carries it. */
  lemma FullInformationIsLostForGood(states: seq<State>, known: seq<Known>, pushes: seq<Push>)
    requires IsRun(states, known, pushes) && |pushes| >= 2
    requires !pushes[0].includeHardware && pushes[0].sent
    requires Takes(pushes[1]) && !pushes[1].sent
    ensures forall k :: 0 <= k < |pushes| && pushes[k].sent ==> !HasImmutablePart(Message(states[k], pushes[k]))
  {
    FullInformationCanBeLost(states, known, pushes, 0, 1);
  }

  // ---------- The service ----------

  class HeartbeatService {
    var previousMutableHardwareInfo: Option<Snapshot>
    var firstHeartbeat: bool

    function Current(): State
      reads this
    {
      State(previousMutableHardwareInfo, firstHeartbeat)
    }

    constructor ()
      ensures Current() == INITIAL
    {
      previousMutableHardwareInfo, firstHeartbeat := None, true;
    }

    method BuildHardwareInfo(delta: bool, read: Option<Snapshot>, full: Option<Info>) returns (info: Option<Info>)
      modifies this`previousMutableHardwareInfo
      ensures info == Message(old(Current()), Push(true, delta, read, full, true))
      ensures previousMutableHardwareInfo == if read.Some? then read else old(previousMutableHardwareInfo)
    {
      if read.None? {
        return None;
      }
      info := Some(MutableInfo(read.value));
      if delta && previousMutableHardwareInfo.Some? {
        info := Some(Delta(previousMutableHardwareInfo.value, read.value));
      }
      if previousMutableHardwareInfo.None? {
        info := full;
      }
      previousMutableHardwareInfo := read;
    }

    method PushInformation(p: Push) returns (message: Option<Info>)
      modifies this
      ensures message == Message(old(Current()), p)
      ensures Current() == Pushed(old(Current()), p)
    {
      message := None;
      if p.includeHardware {
        message := BuildHardwareInfo(p.delta, p.read, p.full);
      }
      if !p.sent {
        if firstHeartbeat {
          previousMutableHardwareInfo := None;
        }
        return;
      }
      firstHeartbeat := false;
    }
  }
}
