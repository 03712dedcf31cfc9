/**
 The jack registry: a bit mask of enabled jacks, toggled with XOR, beside a hashmap from port names
 to reference-counted jack data. A client holds a handle for each registration. Jack types are the
 enumerators of pa_pal_jack_type_t, each of them one bit.
*/
module JackRegistry {
  import opened Wrappers

  type Mask = bv32

  const WIRED_HEADSET: Mask := 0x1
  const WIRED_HEADPHONE: Mask := 0x2
  const LINEOUT: Mask := 0x4
  const HEADSET_BUTTONS: Mask := 0x8
  const HDMI_IN: Mask := 0x10
  const BTA2DP_OUT: Mask := 0x20
  const BTA2DP_IN: Mask := 0x40
  const HDMI_ARC: Mask := 0x80
  const SPDIF: Mask := 0x100
  const BTSCO_IN: Mask := 0x200
  const BTSCO_OUT: Mask := 0x400
  const HDMI_OUT: Mask := 0x800
  const SPDIF_OUT_OPTICAL: Mask := 0x1000
  const SPDIF_OUT_COAXIAL: Mask := 0x2000
  const DISPLAY_IN: Mask := 0x4000

  /** pa_pal_util_get_port_name_from_jack_type; the empty string stands for NULL. */
  function PortName(t: Mask): string {
    if t == WIRED_HEADSET then "headset"
    else if t == HEADSET_BUTTONS then "headset-mic"
    else if t == WIRED_HEADPHONE then "headphone"
    else if t == LINEOUT then "lineout"
    else if t == HDMI_IN then "hdmi-in"
    else if t == DISPLAY_IN then "dp-in"
    else if t == BTA2DP_OUT then "bta2dp-out"
    else if t == BTA2DP_IN then "bta2dp-in"
    else if t == HDMI_ARC then "hdmi-arc"
    else if t == SPDIF then "spdif-in"
    else if t == BTSCO_IN then "btsco-in"
    else if t == BTSCO_OUT then "btsco-out"
    else if t == HDMI_OUT then "hdmi-out"
    else if t == SPDIF_OUT_OPTICAL then "spdif-out-optical"
    else if t == SPDIF_OUT_COAXIAL then "spdif-out-coaxial"
    else ""
  }

  predicate IsType(t: Mask) {
    PortName(t) != ""
  }

  lemma PortNamesDiffer(t: Mask, u: Mask)
    ensures IsType(t) && PortName(t) == PortName(u) ==> t == u
  {
    var a, b := PortName(t), PortName(u);
    assert IsType(t) && |a| == |b| && t != u ==>
        a[0] != b[0] || a[1] != b[1] || a[3] != b[3] || a[|a| - 1] != b[|a| - 1] || (|a| == 17 && a[10] != b[10]);
  }

  // ---------------------------------------------------------------------------
  // The mask

  predicate SingleBit(b: Mask) {
    b != 0 && b & (b - 1) == 0
  }

  lemma TypesAreSingleBits(t: Mask)
    ensures IsType(t) ==> SingleBit(t)
  {
  }

  predicate Has(mask: Mask, b: Mask) {
    mask & b != 0
  }

  function Toggle(mask: Mask, b: Mask): Mask {
    mask ^ b
  }

  lemma SingleBitsAreApart(b: Mask, c: Mask)
    requires SingleBit(b) && SingleBit(c) && b != c
    ensures b & c == 0
  {
  }

  lemma XorElsewhere(mask: Mask, b: Mask, c: Mask)
    requires b & c == 0
    ensures (mask ^ b) & c == mask & c
  {
  }

  lemma XorThere(mask: Mask, b: Mask)
    requires SingleBit(b)
    ensures mask & b == 0 <==> (mask ^ b) & b != 0
  {
  }

  lemma XorTest(mask: Mask, t: Mask, b: Mask)
    requires SingleBit(t) && SingleBit(b)
    ensures Has(Toggle(mask, t), b) <==> (if b == t then !Has(mask, b) else Has(mask, b))
  {
    if b == t {
      XorThere(mask, t);
    } else {
      SingleBitsAreApart(t, b);
      XorElsewhere(mask, t, b);
    }
  }

  lemma EveryMaskIsMadeOfBits(mask: Mask)
    requires forall b :: SingleBit(b) ==> !Has(mask, b)
    ensures mask == 0
  {
    var lowest := mask & (0 - mask);
    assert mask != 0 ==> lowest != 0 && lowest & (lowest - 1) == 0 && mask & lowest == lowest;
    if mask != 0 {
      assert SingleBit(lowest) && Has(mask, lowest);
    }
  }

  /** `mask` is the bitwise OR of the elements of `on`, which are single bits. */
  ghost predicate IsOrOf(mask: Mask, on: set<Mask>) {
    && (forall b :: b in on ==> SingleBit(b))
    && (forall b :: SingleBit(b) ==> (Has(mask, b) <==> b in on))
  }

  function Flip(on: set<Mask>, t: Mask): set<Mask> {
    if t in on then on - {t} else on + {t}
  }

  lemma ToggleFlipsAt(mask: Mask, on: set<Mask>, t: Mask, b: Mask)
    requires SingleBit(t) && SingleBit(b) && (Has(mask, b) <==> b in on)
    ensures Has(Toggle(mask, t), b) <==> b in Flip(on, t)
  {
    XorTest(mask, t, b);
  }

  /** XOR with a bit puts it in the set, or takes it out if it was there. */
  lemma ToggleFlips(mask: Mask, on: set<Mask>, t: Mask)
    requires IsOrOf(mask, on) && SingleBit(t)
    ensures IsOrOf(Toggle(mask, t), Flip(on, t))
  {
    forall b | SingleBit(b)
      ensures Has(Toggle(mask, t), b) <==> b in Flip(on, t)
    {
      ToggleFlipsAt(mask, on, t, b);
    }
  }

  lemma OrOfNothingIsZero(mask: Mask)
    requires IsOrOf(mask, {})
    ensures mask == 0
  {
    EveryMaskIsMadeOfBits(mask);
  }

  // ---------------------------------------------------------------------------
  // The registry as a value

  datatype Jack = Jack(jackType: Mask, refCount: int)

  datatype BackendEvent = Enabled(t: Mask) | Disabled(t: Mask)

  /** `handles` is the heap of jack_userdata structures that clients hold. */
  datatype Registry = Registry(
    enabled: Mask,
    jacks: map<string, Jack>,
    handles: map<nat, Mask>,
    nextHandle: nat,
    log: seq<BackendEvent>)

  /** Line-out and headphone share the headset's jack. */
  function Normalise(t: Mask): Mask {
    if t == LINEOUT || t == WIRED_HEADPHONE then WIRED_HEADSET else t
  }

  /** Does enabling detection give jack data? HDMI-out needs a socket; other types have no backend. */
  predicate BackendGivesJack(t: Mask, socketOk: bool) {
    (t == HDMI_OUT && socketOk)
    || t == BTA2DP_IN || t == BTA2DP_OUT || t == BTSCO_IN || t == BTSCO_OUT || t == HDMI_IN || t == DISPLAY_IN
  }

  function WithHandle(r: Registry, t: Mask): Registry {
    r.(handles := r.handles[r.nextHandle := t], nextHandle := r.nextHandle + 1)
  }

  function Register(r: Registry, jackType: Mask, socketOk: bool): (Registry, Option<nat>) {
    var t := Normalise(jackType);
    var name := PortName(t);
    if name == "" then (r, None)
    else if !Has(r.enabled, t) then
      if !BackendGivesJack(t, socketOk) then (r, None)
      else
        var jacks := if name in r.jacks then r.jacks else r.jacks[name := Jack(t, 1)];
        (WithHandle(r, t).(enabled := Toggle(r.enabled, t), jacks := jacks, log := r.log + [Enabled(t)]),
         Some(r.nextHandle))
    else if name in r.jacks then
      var jack := r.jacks[name];
      (WithHandle(r, t).(jacks := r.jacks[name := jack.(refCount := jack.refCount + 1)]), Some(r.nextHandle))
    else (WithHandle(r, t), Some(r.nextHandle))
  }

  function Deregister(r: Registry, handle: nat): (Registry, bool)
    requires handle in r.handles
  {
    var name := PortName(r.handles[handle]);
    if name !in r.jacks then (r, false)
    else
      var jack := r.jacks[name].(refCount := r.jacks[name].refCount - 1);
      var q := r.(handles := r.handles - {handle});
      if jack.refCount == 0 then
        var jacks := r.jacks - {name};
        (q.(jacks := jacks,
            enabled := if jacks == map[] then 0 else Toggle(r.enabled, jack.jackType),
            log := r.log + [Disabled(jack.jackType)]),
         true)
      else (q.(jacks := r.jacks[name := jack]), true)
  }

  // ---------------------------------------------------------------------------
  // What every sequence of calls keeps

  function Holders(handles: map<nat, Mask>, t: Mask): set<nat> {
    set h | h in handles && handles[h] == t
  }

  function Registered(jacks: map<string, Jack>): set<Mask> {
    set name | name in jacks :: jacks[name].jackType
  }

  /** The type of the last event about `t` was Enabled. */
  predicate On(log: seq<BackendEvent>, t: Mask) {
    log != [] &&
    (if log[|log| - 1].t == t then log[|log| - 1].Enabled? else On(log[..|log| - 1], t))
  }

  /** Per jack, enabling and disabling alternate, beginning with enabling. */
  predicate Alternates(log: seq<BackendEvent>) {
    log == [] ||
    var last, front := log[|log| - 1], log[..|log| - 1];
    Alternates(front) && (last.Enabled? <==> !On(front, last.t))
  }

  /** Each jack is filed under the port name of its type. */
  ghost predicate FiledByName(jacks: map<string, Jack>) {
    forall name :: name in jacks ==> IsType(jacks[name].jackType) && name == PortName(jacks[name].jackType)
  }

  /** Each jack's count is the number of live handles of its type. */
  ghost predicate CountsHandles(jacks: map<string, Jack>, handles: map<nat, Mask>) {
    forall name :: name in jacks ==> 0 < jacks[name].refCount == |Holders(handles, jacks[name].jackType)|
  }

  ghost predicate HandlesHaveJacks(jacks: map<string, Jack>, handles: map<nat, Mask>, next: nat) {
    forall h :: h in handles ==> h < next && IsType(handles[h]) && PortName(handles[h]) in jacks
  }

  ghost predicate JacksInv(jacks: map<string, Jack>, handles: map<nat, Mask>, next: nat) {
    FiledByName(jacks) && CountsHandles(jacks, handles) && HandlesHaveJacks(jacks, handles, next)
  }

  ghost predicate LogInv(log: seq<BackendEvent>, on: set<Mask>) {
    Alternates(log) && forall t :: On(log, t) <==> t in on
  }

  ghost predicate Inv(r: Registry) {
    && JacksInv(r.jacks, r.handles, r.nextHandle)
    && LogInv(r.log, Registered(r.jacks))
    && IsOrOf(r.enabled, Registered(r.jacks))
  }

  lemma OneMoreHolder(handles: map<nat, Mask>, h: nat, t: Mask)
    requires h !in handles
    ensures forall u :: Holders(handles[h := t], u) == if u == t then Holders(handles, u) + {h} else Holders(handles, u)
  {
  }

  lemma OneHolderLess(handles: map<nat, Mask>, h: nat)
    requires h in handles
    ensures forall u :: Holders(handles - {h}, u) == Holders(handles, u) - {h}
    ensures forall u :: u != handles[h] ==> Holders(handles - {h}, u) == Holders(handles, u)
  {
  }

  lemma LogGrows(log: seq<BackendEvent>, e: BackendEvent, on: set<Mask>)
    requires LogInv(log, on) && (e.Enabled? <==> e.t !in on)
    ensures LogInv(log + [e], Flip(on, e.t))
  {
    assert (log + [e])[..|log|] == log;
  }

  /** A type is registered exactly if the map has its port name. */
  lemma RegisteredByName(jacks: map<string, Jack>, t: Mask)
    requires FiledByName(jacks) && IsType(t)
    ensures t in Registered(jacks) <==> PortName(t) in jacks
    ensures PortName(t) in jacks ==> jacks[PortName(t)].jackType == t
  {
    if PortName(t) in jacks {
      PortNamesDiffer(t, jacks[PortName(t)].jackType);
    }
  }

  /** Every other name holds another type. */
  lemma OtherNames(jacks: map<string, Jack>, t: Mask)
    requires FiledByName(jacks) && IsType(t)
    ensures forall name :: name in jacks && name != PortName(t) ==> jacks[name].jackType != t
  {
    hide PortName;
  }

  // The four ways a call changes the map.

  lemma TypesAfterAdding(jacks: map<string, Jack>, name: string, jack: Jack)
    requires name !in jacks && forall other :: other in jacks ==> jacks[other].jackType != jack.jackType
    ensures jack.jackType !in Registered(jacks)
    ensures Registered(jacks[name := jack]) == Registered(jacks) + {jack.jackType}
  {
    var after := jacks[name := jack];
    assert after[name].jackType == jack.jackType;
    forall u | u in Registered(jacks)
      ensures u in Registered(after)
    {
      var other :| other in jacks && jacks[other].jackType == u;
      assert other in after && after[other].jackType == u;
    }
  }

  /** A new handle adds one to the count of its type only. */
  lemma CountsAfterTaking(jacks: map<string, Jack>, handles: map<nat, Mask>, h: nat, t: Mask, name: string)
    requires CountsHandles(jacks, handles) && h !in handles
    requires forall other :: other in jacks && jacks[other].jackType == t ==> other == name
    requires name in jacks ==> jacks[name].jackType == t
    requires name !in jacks ==> Holders(handles, t) == {}
    ensures var count := if name in jacks then jacks[name].refCount + 1 else 1;
      CountsHandles(jacks[name := Jack(t, count)], handles[h := t])
  {
    OneMoreHolder(handles, h, t);
    hide Holders;
  }

  lemma FirstHandle(jacks: map<string, Jack>, handles: map<nat, Mask>, next: nat, t: Mask, name: string)
    requires JacksInv(jacks, handles, next) && IsType(t) && name == PortName(t) && name !in jacks
    ensures JacksInv(jacks[name := Jack(t, 1)], handles[next := t], next + 1)
    ensures t !in Registered(jacks) && Registered(jacks[name := Jack(t, 1)]) == Registered(jacks) + {t}
  {
    hide PortName, IsType, Registered;
    OtherNames(jacks, t);
    assert Holders(handles, t) == {};
    TypesAfterAdding(jacks, name, Jack(t, 1));
    CountsAfterTaking(jacks, handles, next, t, name);
    hide CountsHandles, Holders;
  }

  lemma NextHandle(jacks: map<string, Jack>, handles: map<nat, Mask>, next: nat, t: Mask, name: string)
    requires JacksInv(jacks, handles, next) && IsType(t) && name == PortName(t) && name in jacks
    ensures jacks[name].jackType == t
    ensures var after := jacks[name := Jack(t, jacks[name].refCount + 1)];
      JacksInv(after, handles[next := t], next + 1) && Registered(after) == Registered(jacks)
  {
    hide PortName, IsType, Registered;
    RegisteredByName(jacks, t);
    OtherNames(jacks, t);
    CountsAfterTaking(jacks, handles, next, t, name);
    SameTypes(jacks, jacks[name := Jack(t, jacks[name].refCount + 1)]);
    hide CountsHandles, Holders;
  }

  lemma SameTypes(jacks: map<string, Jack>, after: map<string, Jack>)
    requires jacks.Keys == after.Keys
    requires forall name :: name in jacks ==> jacks[name].jackType == after[name].jackType
    ensures Registered(after) == Registered(jacks)
  {
  }

  /** Giving back a handle takes one off the count of its type only. */
  lemma CountsAfterHandBack(jacks: map<string, Jack>, handles: map<nat, Mask>, h: nat, name: string)
    requires CountsHandles(jacks, handles) && h in handles && name in jacks
    requires forall other :: other in jacks ==> (jacks[other].jackType == handles[h] <==> other == name)
    ensures |Holders(handles - {h}, handles[h])| == jacks[name].refCount - 1
    ensures CountsHandles(jacks - {name}, handles - {h})
    ensures jacks[name].refCount != 1 ==>
      CountsHandles(jacks[name := jacks[name].(refCount := jacks[name].refCount - 1)], handles - {h})
  {
    OneHolderLess(handles, h);
    assert h in Holders(handles, handles[h]);
    hide Holders;
  }

  lemma NotLastHandle(jacks: map<string, Jack>, handles: map<nat, Mask>, next: nat, h: nat, name: string)
    requires JacksInv(jacks, handles, next) && h in handles && name == PortName(handles[h])
    requires jacks[name].refCount != 1
    ensures var after := jacks[name := jacks[name].(refCount := jacks[name].refCount - 1)];
      JacksInv(after, handles - {h}, next) && Registered(after) == Registered(jacks)
  {
    hide PortName, IsType, Registered;
    RegisteredByName(jacks, handles[h]);
    OtherNames(jacks, handles[h]);
    hide CountsHandles;
    CountsAfterHandBack(jacks, handles, h, name);
    SameTypes(jacks, jacks[name := jacks[name].(refCount := jacks[name].refCount - 1)]);
  }

  lemma TypesAfterRemoval(jacks: map<string, Jack>, name: string, t: Mask)
    requires name in jacks && forall other :: other in jacks ==> (jacks[other].jackType == t <==> other == name)
    ensures t in Registered(jacks) && Registered(jacks - {name}) == Registered(jacks) - {t}
  {
    forall u | u in Registered(jacks) - {t}
      ensures u in Registered(jacks - {name})
    {
      var other :| other in jacks && jacks[other].jackType == u;
      assert other in jacks - {name} && (jacks - {name})[other].jackType == u;
    }
  }

  lemma HandlesAfterLast(jacks: map<string, Jack>, handles: map<nat, Mask>, next: nat, h: nat, name: string)
    requires HandlesHaveJacks(jacks, handles, next) && h in handles && name == PortName(handles[h])
    requires |Holders(handles - {h}, handles[h])| == 0
    ensures HandlesHaveJacks(jacks - {name}, handles - {h}, next)
  {
    hide PortName, IsType;
    forall k | k in handles - {h}
      ensures PortName(handles[k]) != name
    {
      assert k !in Holders(handles - {h}, handles[h]);
      SameNameSameType(handles[k], handles[h]);
    }
  }

  lemma LastHandle(jacks: map<string, Jack>, handles: map<nat, Mask>, next: nat, h: nat, name: string)
    requires JacksInv(jacks, handles, next) && h in handles && name == PortName(handles[h])
    requires jacks[name].refCount == 1
    ensures JacksInv(jacks - {name}, handles - {h}, next)
    ensures jacks[name].jackType == handles[h] && handles[h] in Registered(jacks)
    ensures Registered(jacks - {name}) == Registered(jacks) - {handles[h]}
  {
    hide PortName, IsType, Registered;
    RegisteredByName(jacks, handles[h]);
    OtherNames(jacks, handles[h]);
    hide CountsHandles;
    CountsAfterHandBack(jacks, handles, h, name);
    TypesAfterRemoval(jacks, name, handles[h]);
    HandlesAfterLast(jacks, handles, next, h, name);
  }

  lemma SameNameSameType(t: Mask, u: Mask)
    requires IsType(t) && IsType(u) && t != u
    ensures PortName(t) != PortName(u)
  {
    PortNamesDiffer(t, u);
  }

  lemma NamedOrNot(t: Mask)
    ensures IsType(t) <==> PortName(t) != ""
  {
  }

  lemma InvRegisteredByName(r: Registry, t: Mask)
    requires Inv(r) && IsType(t)
    ensures t in Registered(r.jacks) <==> PortName(t) in r.jacks
    ensures PortName(t) in r.jacks ==> r.jacks[PortName(t)].jackType == t
  {
    hide PortName, IsType;
    RegisteredByName(r.jacks, t);
  }

  lemma RegisterKeeps(r: Registry, jackType: Mask, socketOk: bool)
    requires Inv(r)
    ensures Inv(Register(r, jackType, socketOk).0)
  {
    hide PortName, IsType, Toggle, Has, IsOrOf, JacksInv, LogInv, Registered, Normalise;
    var t := Normalise(jackType);
    NamedOrNot(t);
    if IsType(t) {
      TypesAreSingleBits(t);
      InvRegisteredByName(r, t);
      HasMeansRegistered(r.enabled, Registered(r.jacks), t);
      if PortName(t) in r.jacks {
        NextHandle(r.jacks, r.handles, r.nextHandle, t, PortName(t));
      } else {
        FirstHandle(r.jacks, r.handles, r.nextHandle, t, PortName(t));
        ToggleFlips(r.enabled, Registered(r.jacks), t);
        LogGrows(r.log, Enabled(t), Registered(r.jacks));
      }
    }
  }

  lemma HasMeansRegistered(mask: Mask, on: set<Mask>, t: Mask)
    requires IsOrOf(mask, on) && SingleBit(t)
    ensures Has(mask, t) <==> t in on
  {
  }

  lemma RemovingTheOnlyJack(jacks: map<string, Jack>, name: string)
    requires name in jacks && jacks - {name} == map[]
    ensures Registered(jacks) == {jacks[name].jackType}
  {
    forall other | other in jacks
      ensures other == name
    {
      assert other != name ==> other in jacks - {name};
    }
  }

  /** When the last jack goes the mask is 0 by XOR alone, so setting it to 0 then changes nothing. */
  lemma FinalResetIsRedundant(r: Registry, name: string)
    requires Inv(r) && name in r.jacks && r.jacks - {name} == map[]
    ensures Toggle(r.enabled, r.jacks[name].jackType) == 0
  {
    hide PortName, IsType, Toggle, IsOrOf;
    var t := r.jacks[name].jackType;
    TypesAreSingleBits(t);
    RemovingTheOnlyJack(r.jacks, name);
    ToggleFlips(r.enabled, Registered(r.jacks), t);
    assert Flip(Registered(r.jacks), t) == {};
    OrOfNothingIsZero(Toggle(r.enabled, t));
  }

  lemma DeregisterKeeps(r: Registry, handle: nat)
    requires Inv(r) && handle in r.handles
    ensures Inv(Deregister(r, handle).0) && Deregister(r, handle).1
  {
    var t := r.handles[handle];
    TypesAreSingleBits(t);
    assert IsType(t) && PortName(t) in r.jacks;
    hide PortName, Toggle, Has, IsOrOf, JacksInv, LogInv;
    if r.jacks[PortName(t)].refCount == 1 {
      LastHandle(r.jacks, r.handles, r.nextHandle, handle, PortName(t));
      ToggleFlips(r.enabled, Registered(r.jacks), t);
      LogGrows(r.log, Disabled(t), Registered(r.jacks));
      if r.jacks - {PortName(t)} == map[] {
        FinalResetIsRedundant(r, PortName(t));
      }
    } else {
      NotLastHandle(r.jacks, r.handles, r.nextHandle, handle, PortName(t));
    }
  }

  // ---------------------------------------------------------------------------
  // Runs

  datatype Call = Reg(jackType: Mask, socketOk: bool) | Dereg(handle: nat)

  /** A client gives back only a handle it holds. */
  predicate MayCall(r: Registry, c: Call) {
    c.Dereg? ==> c.handle in r.handles
  }

  function Step(r: Registry, c: Call): Registry
    requires MayCall(r, c)
  {
    match c
    case Reg(t, ok) => Register(r, t, ok).0
    case Dereg(h) => Deregister(r, h).0
  }

  predicate ValidRun(r: Registry, calls: seq<Call>)
    decreases |calls|
  {
    calls == [] || (MayCall(r, calls[0]) && ValidRun(Step(r, calls[0]), calls[1..]))
  }

  function After(r: Registry, calls: seq<Call>): Registry
    requires ValidRun(r, calls)
    decreases |calls|
  {
    if calls == [] then r else After(Step(r, calls[0]), calls[1..])
  }

  predicate Fresh(r: Registry) {
    r.enabled == 0 && r.jacks == map[] && r.handles == map[] && r.log == []
  }

  lemma StepKeeps(r: Registry, c: Call)
    requires Inv(r) && MayCall(r, c)
    ensures Inv(Step(r, c))
  {
    hide Inv, Register, Deregister;
    match c
    case Reg(t, ok) => RegisterKeeps(r, t, ok);
    case Dereg(h) => DeregisterKeeps(r, h);
  }

  lemma {:induction false} InvRun(r: Registry, calls: seq<Call>)
    requires Inv(r) && ValidRun(r, calls)
    ensures Inv(After(r, calls))
    decreases |calls|
  {
    hide Inv, Step;
    if calls != [] {
      StepKeeps(r, calls[0]);
      InvRun(Step(r, calls[0]), calls[1..]);
    }
  }

  lemma FreshInv(r: Registry)
    requires Fresh(r)
    ensures Inv(r)
  {
  }

  /** In a registry within the invariant, mask, map, counts and back-end history tell the same story. */
  lemma ViewsAgree(r: Registry, t: Mask)
    requires Inv(r) && IsType(t)
    ensures Has(r.enabled, t) <==> PortName(t) in r.jacks
    ensures On(r.log, t) <==> PortName(t) in r.jacks
    ensures PortName(t) in r.jacks <==> Holders(r.handles, t) != {}
    ensures PortName(t) in r.jacks ==> r.jacks[PortName(t)] == Jack(t, |Holders(r.handles, t)|)
  {
    TypesAreSingleBits(t);
    hide PortName, IsType, Has;
    InvRegisteredByName(r, t);
    HasMeansRegistered(r.enabled, Registered(r.jacks), t);
    if h :| h in Holders(r.handles, t) {
      assert PortName(r.handles[h]) in r.jacks;
    }
  }

  /**
   After any sequence of calls: the mask is the OR of exactly the registered types, a type is
   registered exactly while handles of it are live and its count is their number, and the back end
   has been enabled and disabled alternately, last enabled exactly if registered.
  */
  lemma EveryRunAgrees(init: Registry, calls: seq<Call>)
    requires Fresh(init) && ValidRun(init, calls)
    ensures var r := After(init, calls);
      && IsOrOf(r.enabled, Registered(r.jacks))
      && Alternates(r.log)
      && (forall t :: IsType(t) ==>
            && (Has(r.enabled, t) <==> PortName(t) in r.jacks)
            && (On(r.log, t) <==> PortName(t) in r.jacks)
            && (PortName(t) in r.jacks <==> Holders(r.handles, t) != {})
            && (PortName(t) in r.jacks ==> r.jacks[PortName(t)] == Jack(t, |Holders(r.handles, t)|)))
  {
    FreshInv(init);
    InvRun(init, calls);
    var r := After(init, calls);
    assert IsOrOf(r.enabled, Registered(r.jacks)) && Alternates(r.log);
    hide *;
    forall t | IsType(t)
      ensures Has(r.enabled, t) <==> PortName(t) in r.jacks
      ensures On(r.log, t) <==> PortName(t) in r.jacks
      ensures PortName(t) in r.jacks <==> Holders(r.handles, t) != {}
      ensures PortName(t) in r.jacks ==> r.jacks[PortName(t)] == Jack(t, |Holders(r.handles, t)|)
    {
      ViewsAgree(r, t);
    }
  }

  lemma ToggleTwice(mask: Mask, t: Mask)
    ensures Toggle(Toggle(mask, t), t) == mask
  {
  }

  lemma EmptyRegistryHasZeroMask(r: Registry)
    requires Inv(r) && r.jacks == map[]
    ensures r.enabled == 0
  {
    assert Registered(r.jacks) == {};
    OrOfNothingIsZero(r.enabled);
  }

  /** A successful registration is either a further handle for a jack in the map, or a new jack. */
  lemma RegisterCases(r: Registry, jackType: Mask, socketOk: bool)
    requires Inv(r)
    ensures var t := Normalise(jackType);
      Register(r, jackType, socketOk).1.Some? <==>
        IsType(t) && (PortName(t) in r.jacks || BackendGivesJack(t, socketOk))
    ensures Register(r, jackType, socketOk).1.None? ==> Register(r, jackType, socketOk).0 == r
    ensures Register(r, jackType, socketOk).1.Some? ==>
      var (q, t) := (Register(r, jackType, socketOk).0, Normalise(jackType));
      q == if PortName(t) in r.jacks then AddHandle(r, t) else AddJack(r, t)
  {
    var t := Normalise(jackType);
    hide PortName, IsType, Toggle, Has, IsOrOf, JacksInv, LogInv, Registered, Normalise, BackendGivesJack;
    NamedOrNot(t);
    if IsType(t) {
      TypesAreSingleBits(t);
      InvRegisteredByName(r, t);
      HasMeansRegistered(r.enabled, Registered(r.jacks), t);
    }
  }

  function AddHandle(r: Registry, t: Mask): Registry
    requires PortName(t) in r.jacks
  {
    var jack := r.jacks[PortName(t)];
    WithHandle(r, t).(jacks := r.jacks[PortName(t) := jack.(refCount := jack.refCount + 1)])
  }

  function AddJack(r: Registry, t: Mask): Registry {
    WithHandle(r, t).(enabled := Toggle(r.enabled, t), jacks := r.jacks[PortName(t) := Jack(t, 1)],
                      log := r.log + [Enabled(t)])
  }

  predicate SameBooks(r: Registry, q: Registry) {
    r.enabled == q.enabled && r.jacks == q.jacks && r.handles == q.handles
  }

  lemma UndoAddHandle(r: Registry, t: Mask, name: string)
    requires name == PortName(t) && name in r.jacks && r.jacks[name].refCount > 0 && r.nextHandle !in r.handles
    ensures SameBooks(Deregister(AddHandle(r, t), r.nextHandle).0, r)
  {
    hide PortName, Toggle;
    var q := AddHandle(r, t);
    assert q.handles - {r.nextHandle} == r.handles;
    assert q.jacks[name := r.jacks[name]] == r.jacks;
  }

  lemma UndoAddJack(r: Registry, t: Mask, name: string)
    requires name == PortName(t) && name !in r.jacks && r.nextHandle !in r.handles
    requires r.jacks == map[] ==> r.enabled == 0
    ensures SameBooks(Deregister(AddJack(r, t), r.nextHandle).0, r)
  {
    ToggleTwice(r.enabled, t);
    hide PortName, Toggle;
    var q := AddJack(r, t);
    assert q.handles - {r.nextHandle} == r.handles;
    assert q.jacks - {name} == r.jacks;
  }

  /** A handle given back straight away leaves mask, map and handles as they were before it was taken. */
  lemma DeregisterUndoesRegister(r: Registry, jackType: Mask, socketOk: bool)
    requires Inv(r)
    ensures var (q, handle) := Register(r, jackType, socketOk);
      handle.Some? ==> handle.value in q.handles && SameBooks(Deregister(q, handle.value).0, r)
  {
    RegisterCases(r, jackType, socketOk);
    hide PortName, IsType, Toggle, Has, IsOrOf, LogInv, Registered, Normalise, BackendGivesJack, Deregister;
    var t := Normalise(jackType);
    if Register(r, jackType, socketOk).1.Some? {
      if PortName(t) in r.jacks {
        UndoAddHandle(r, t, PortName(t));
      } else {
        if r.jacks == map[] {
          EmptyRegistryHasZeroMask(r);
        }
        UndoAddJack(r, t, PortName(t));
      }
    }
  }

  // ---------------------------------------------------------------------------
  // Who holds what, told from the calls alone

  /** The ports of the jacks that external code or a device node reports. */
  predicate External(name: string) {
    name in {"bta2dp-in", "bta2dp-out", "btsco-in", "btsco-out", "hdmi-in", "dp-in"}
  }

  /** HDMI-out takes a socket for its first holder. */
  predicate Grants(handles: map<nat, Mask>, t: Mask, socketOk: bool) {
    External(PortName(t)) || (PortName(t) == "hdmi-out" && (socketOk || Holders(handles, t) != {}))
  }

  /** The handles held after the calls, each with the type it was taken for. */
  function Ledger(handles: map<nat, Mask>, next: nat, calls: seq<Call>): map<nat, Mask>
    decreases |calls|
  {
    if calls == [] then handles
    else
      match calls[0]
      case Reg(t, socketOk) =>
        if Grants(handles, t, socketOk) then Ledger(handles[next := t], next + 1, calls[1..])
        else Ledger(handles, next, calls[1..])
      case Dereg(h) => Ledger(handles - {h}, next, calls[1..])
  }

  ghost predicate OnlyBacked(handles: map<nat, Mask>) {
    forall h :: h in handles ==> External(PortName(handles[h])) || PortName(handles[h]) == "hdmi-out"
  }

  lemma BackendsByName(t: Mask, socketOk: bool)
    ensures BackendGivesJack(t, socketOk) <==> External(PortName(t)) || (PortName(t) == "hdmi-out" && socketOk)
    ensures External(PortName(t)) || PortName(t) == "hdmi-out" ==> IsType(t)
  {
  }

  /** Line-out, headphone and headset share a jack, which has no back end; every other type stands for itself. */
  lemma NormalisedByName(t: Mask)
    ensures Normalise(t) == t || PortName(t) in {"lineout", "headphone"}
    ensures PortName(t) in {"lineout", "headphone", "headset"} ==> PortName(Normalise(t)) == "headset"
  {
  }

  lemma RegisterGrants(r: Registry, t: Mask, socketOk: bool)
    requires Inv(r) && OnlyBacked(r.handles)
    ensures var (q, handle) := Register(r, t, socketOk);
      && (handle == if Grants(r.handles, t, socketOk) then Some(r.nextHandle) else None)
      && q.handles == (if Grants(r.handles, t, socketOk) then r.handles[r.nextHandle := t] else r.handles)
      && q.nextHandle == (if Grants(r.handles, t, socketOk) then r.nextHandle + 1 else r.nextHandle)
  {
    RegisterCases(r, t, socketOk);
    NormalisedByName(t);
    var u := Normalise(t);
    BackendsByName(u, socketOk);
    BackendsByName(t, socketOk);
    hide PortName, IsType, Toggle, Has, BackendGivesJack, Normalise, Registered, External;
    if IsType(u) {
      ViewsAgree(r, u);
      hide Inv;
    }
  }

  lemma DeregisterHandles(r: Registry, h: nat)
    requires Inv(r) && h in r.handles
    ensures Deregister(r, h).0.handles == r.handles - {h} && Deregister(r, h).0.nextHandle == r.nextHandle
  {
    assert PortName(r.handles[h]) in r.jacks;
    hide PortName, Toggle, Inv;
  }

  lemma GrantedIsBacked(handles: map<nat, Mask>, next: nat, t: Mask, socketOk: bool)
    requires OnlyBacked(handles) && Grants(handles, t, socketOk)
    ensures OnlyBacked(handles[next := t])
  {
    hide PortName;
  }

  lemma {:induction false} LedgerRun(r: Registry, calls: seq<Call>)
    requires Inv(r) && OnlyBacked(r.handles) && ValidRun(r, calls)
    ensures After(r, calls).handles == Ledger(r.handles, r.nextHandle, calls) && OnlyBacked(After(r, calls).handles)
    decreases |calls|
  {
    hide Inv, Register, Deregister, Grants, OnlyBacked;
    if calls != [] {
      StepKeeps(r, calls[0]);
      match calls[0] {
        case Reg(t, socketOk) =>
          RegisterGrants(r, t, socketOk);
          if Grants(r.handles, t, socketOk) {
            GrantedIsBacked(r.handles, r.nextHandle, t, socketOk);
          }
        case Dereg(h) =>
          DeregisterHandles(r, h);
          FewerAreBacked(r.handles, h);
      }
      hide Step;
      LedgerRun(Step(r, calls[0]), calls[1..]);
    }
  }

  lemma FewerAreBacked(handles: map<nat, Mask>, h: nat)
    requires OnlyBacked(handles)
    ensures OnlyBacked(handles - {h})
  {
  }

  /**
   After any sequence of calls the handles held are those granted and not given back: every request for a jack
   with a reporter of its own is granted, one for HDMI-out if it gets its socket or somebody holds it, and no
   other; so nobody ever holds a headset, headphone or line-out.
  */
  lemma HandlesAreThoseGranted(init: Registry, calls: seq<Call>)
    requires Fresh(init) && ValidRun(init, calls)
    ensures After(init, calls).handles == Ledger(map[], init.nextHandle, calls)
    ensures OnlyBacked(After(init, calls).handles)
  {
    FreshInv(init);
    LedgerRun(init, calls);
  }

  // ---------------------------------------------------------------------------
  // The registry as the source keeps it: two variables updated in place

  class JackModule {
    var enabledJacks: Mask
    var registeredJacks: map<string, Jack>
    /** The jack_userdata structures clients hold, by the number of the call that made them. */
    var handles: map<nat, Mask>
    var nextHandle: nat
    /** What the back ends were told. */
    ghost var log: seq<BackendEvent>

    ghost function View(): Registry
      reads this
    {
      Registry(enabledJacks, registeredJacks, handles, nextHandle, log)
    }

    ghost predicate Valid()
      reads this
    {
      Inv(View())
    }

    constructor ()
      ensures Fresh(View()) && Valid()
    {
      enabledJacks, registeredJacks, handles, nextHandle, log := 0, map[], map[], 0, [];
      new;
      FreshInv(View());
    }

    method ToggleJackStatusBits(t: Mask)
      modifies this`enabledJacks
      ensures enabledJacks == Toggle(old(enabledJacks), t)
    {
      enabledJacks := enabledJacks ^ t;
    }

    method RegisterEventCallback(jackType: Mask, socketOk: bool) returns (handle: Option<nat>)
      modifies this
      ensures old(Valid()) ==> Valid()
      ensures (View(), handle) == Register(old(View()), jackType, socketOk)
    {
      ghost var before := View();
      hide Inv, PortName, Toggle, Has, BackendGivesJack, Normalise;
      if Inv(before) {
        RegisterKeeps(before, jackType, socketOk);
      }
      var t := Normalise(jackType);
      var name := PortName(t);
      if name == "" {
        return None;
      }
      if !Has(enabledJacks, t) {
        if !BackendGivesJack(t, socketOk) {
          return None;
        }
        log := log + [Enabled(t)];
        if name !in registeredJacks {
          registeredJacks := registeredJacks[name := Jack(t, 1)];
        }
        ToggleJackStatusBits(t);
      } else if name in registeredJacks {
        var jack := registeredJacks[name];
        registeredJacks := registeredJacks[name := jack.(refCount := jack.refCount + 1)];
      }
      handle := Some(nextHandle);
      handles := handles[nextHandle := t];
      nextHandle := nextHandle + 1;
    }

    /** The last handle of a jack: its back end is disabled, which frees it, so its type comes from the caller. */
    method RemoveJack(name: string, t: Mask)
      requires name in registeredJacks
      modifies this`registeredJacks, this`enabledJacks, this`log
      ensures registeredJacks == old(registeredJacks) - {name}
      ensures enabledJacks == Toggle(old(enabledJacks), t)
      ensures log == old(log) + [Disabled(t)]
    {
      hide Toggle;
      log := log + [Disabled(t)];
      registeredJacks := registeredJacks - {name};
      ToggleJackStatusBits(t);
    }

    /** When no jack is left the mask is reset. */
    method ResetIfEmpty()
      modifies this`enabledJacks
      ensures enabledJacks == if registeredJacks == map[] then 0 else old(enabledJacks)
    {
      if |registeredJacks| == 0 {
        enabledJacks := 0;
      }
    }

    method DeregisterEventCallback(handle: nat) returns (ok: bool)
      requires handle in handles
      modifies this
      ensures old(Valid()) ==> Valid() && ok
      ensures (View(), ok) == Deregister(old(View()), handle)
    {
      ghost var before := View();
      hide Inv, PortName, Toggle;
      if Inv(before) {
        DeregisterKeeps(before, handle);
      }
      var name := PortName(handles[handle]);
      if name !in registeredJacks {
        return false;
      }
      var jack := registeredJacks[name];
      jack := jack.(refCount := jack.refCount - 1);
      registeredJacks := registeredJacks[name := jack];
      if jack.refCount == 0 {
        RemoveJack(name, jack.jackType);
        assert registeredJacks == before.jacks - {name};
      } else {
        assert name in registeredJacks;
      }
      handles := handles - {handle};
      ResetIfEmpty();
      ok := true;
    }
  }
}
