/**
 Key-phrase lists on the wire. The sender walks fixed arrays with counts and builds a D-Bus value; the
 receiver walks the value and fills fixed arrays, stopping at their capacity. The same shape, with
 confidence levels, goes from client to server when recognition starts and from server to client with a
 detection; a shape with user identifiers, a locale and a text goes from client to server when a model is
 loaded. The two capacities belong to the PAL headers and are parameters here.
*/
module PhraseWire {

  datatype Value =
    | U32(n: nat)
    | Str(text: string)
    | Struct(fields: seq<Value>)
    | Array(items: seq<Value>)

  datatype Level = Level(user: nat, level: nat)

  /** A phrase as it is meant: the entries past the count are not part of it. */
  datatype Phrase = Phrase(id: nat, modes: nat, confidence: nat, levels: seq<Level>)

  /** A slot of the structure: `levels` is a fixed array, `numLevels` of which are in use. */
  datatype Slot = Slot(id: nat, modes: nat, confidence: nat, numLevels: nat, levels: seq<Level>)

  predicate SlotOk(s: Slot, users: nat) {
    |s.levels| == users && s.numLevels <= users
  }

  function Meaning(s: Slot): Phrase
    requires s.numLevels <= |s.levels|
  {
    Phrase(s.id, s.modes, s.confidence, s.levels[..s.numLevels])
  }

  function Meanings(slots: seq<Slot>): seq<Phrase>
    requires forall s :: s in slots ==> s.numLevels <= |s.levels|
  {
    seq(|slots|, i requires 0 <= i < |slots| => Meaning(slots[i]))
  }

  // ---------------------------------------------------------------------------
  // The wire, a(uuua(uu))

  function WireLevel(l: Level): Value {
    Struct([U32(l.user), U32(l.level)])
  }

  function WireLevels(ls: seq<Level>): seq<Value> {
    seq(|ls|, j requires 0 <= j < |ls| => WireLevel(ls[j]))
  }

  function WirePhrase(p: Phrase): Value {
    Struct([U32(p.id), U32(p.modes), U32(p.confidence), Array(WireLevels(p.levels))])
  }

  function WirePhrases(ps: seq<Phrase>): seq<Value> {
    seq(|ps|, i requires 0 <= i < |ps| => WirePhrase(ps[i]))
  }

  /** The signature check on a received message. */
  predicate LevelTyped(v: Value) {
    v.Struct? && |v.fields| == 2 && v.fields[0].U32? && v.fields[1].U32?
  }

  predicate PhraseTyped(v: Value) {
    && v.Struct? && |v.fields| == 4 && v.fields[0].U32? && v.fields[1].U32? && v.fields[2].U32?
    && v.fields[3].Array? && forall j :: 0 <= j < |v.fields[3].items| ==> LevelTyped(v.fields[3].items[j])
  }

  predicate Typed(wire: seq<Value>) {
    forall i :: 0 <= i < |wire| ==> PhraseTyped(wire[i])
  }

  // ---------------------------------------------------------------------------
  // The sender

  method EncodeLevels(s: Slot) returns (wire: seq<Value>)
    requires s.numLevels <= |s.levels|
    ensures wire == WireLevels(s.levels[..s.numLevels])
  {
    wire := [];
    for j := 0 to s.numLevels
      invariant wire == WireLevels(s.levels[..j])
    {
      wire := wire + [Struct([U32(s.levels[j].user), U32(s.levels[j].level)])];
    }
  }

  method Encode(slots: array<Slot>, num: nat) returns (wire: seq<Value>)
    requires num <= slots.Length
    requires forall s :: s in slots[..num] ==> s.numLevels <= |s.levels|
    ensures wire == WirePhrases(Meanings(slots[..num]))
    ensures Typed(wire)
  {
    wire := [];
    for i := 0 to num
      invariant wire == WirePhrases(Meanings(slots[..i]))
      invariant Typed(wire)
    {
      var s := slots[i];
      var levels := EncodeLevels(s);
      wire := wire + [Struct([U32(s.id), U32(s.modes), U32(s.confidence), Array(levels)])];
    }
  }

  // ---------------------------------------------------------------------------
  // The receiver

  function Min(a: nat, b: nat): nat {
    if a < b then a else b
  }

  /** What of a phrase fits. */
  function CapPhrase(p: Phrase, users: nat): Phrase {
    p.(levels := p.levels[..Min(|p.levels|, users)])
  }

  function Cap(ps: seq<Phrase>, phrases: nat, users: nat): seq<Phrase> {
    seq(Min(|ps|, phrases), i requires 0 <= i < Min(|ps|, phrases) => CapPhrase(ps[i], users))
  }

  function ReadLevel(v: Value): Level
    requires LevelTyped(v)
  {
    Level(v.fields[0].n, v.fields[1].n)
  }

  function ReadPhrase(v: Value): Phrase
    requires PhraseTyped(v)
  {
    var items := v.fields[3].items;
    Phrase(v.fields[0].n, v.fields[1].n, v.fields[2].n,
           seq(|items|, j requires 0 <= j < |items| => ReadLevel(items[j])))
  }

  function Read(wire: seq<Value>): seq<Phrase>
    requires Typed(wire)
  {
    seq(|wire|, i requires 0 <= i < |wire| => ReadPhrase(wire[i]))
  }

  method DecodePhrase(v: Value, zero: Slot, users: nat) returns (s: Slot)
    requires PhraseTyped(v) && zero.numLevels == 0 && |zero.levels| == users
    ensures SlotOk(s, users) && Meaning(s) == CapPhrase(ReadPhrase(v), users)
  {
    s := zero.(id := v.fields[0].n);
    s := s.(modes := v.fields[1].n);
    s := s.(confidence := v.fields[2].n);
    var items := v.fields[3].items;
    var j := 0;
    while j < |items| && s.numLevels < users
      invariant 0 <= j <= |items| && s.numLevels == j <= users && |s.levels| == users
      invariant s.id == v.fields[0].n && s.modes == v.fields[1].n && s.confidence == v.fields[2].n
      invariant forall k :: 0 <= k < j ==> s.levels[k] == ReadLevel(items[k])
    {
      var level := items[j];
      s := s.(levels := s.levels[j := Level(level.fields[0].n, s.levels[j].level)]);
      s := s.(levels := s.levels[j := Level(s.levels[j].user, level.fields[1].n)]);
      s := s.(numLevels := s.numLevels + 1);
      j := j + 1;
    }
  }

  method Decode(wire: seq<Value>, phrases: nat, users: nat) returns (slots: array<Slot>, num: nat)
    requires Typed(wire)
    ensures fresh(slots) && slots.Length == phrases && num <= phrases
    ensures forall s :: s in slots[..num] ==> s.numLevels <= |s.levels| == users
    ensures Meanings(slots[..num]) == Cap(Read(wire), phrases, users)
  {
    var zero := Slot(0, 0, 0, 0, seq(users, _ => Level(0, 0)));
    slots := new Slot[phrases](_ => zero);
    num := 0;
    var i := 0;
    while i < |wire| && num < phrases
      invariant 0 <= i <= |wire| && num == i <= phrases
      invariant forall k :: i <= k < phrases ==> slots[k] == zero
      invariant forall k :: 0 <= k < i ==>
        SlotOk(slots[k], users) && Meaning(slots[k]) == CapPhrase(ReadPhrase(wire[k]), users)
    {
      slots[i] := DecodePhrase(wire[i], slots[i], users);
      num := num + 1;
      i := i + 1;
    }
  }

  // ---------------------------------------------------------------------------
  // Round trip

  predicate Fits(ps: seq<Phrase>, phrases: nat, users: nat) {
    |ps| <= phrases && forall p :: p in ps ==> |p.levels| <= users
  }

  lemma ReadPhraseInvertsWire(p: Phrase)
    ensures PhraseTyped(WirePhrase(p)) && ReadPhrase(WirePhrase(p)) == p
  {
    assert ReadPhrase(WirePhrase(p)).levels == p.levels;
  }

  lemma ReadInvertsWire(ps: seq<Phrase>)
    ensures Typed(WirePhrases(ps)) && Read(WirePhrases(ps)) == ps
  {
    forall i | 0 <= i < |ps|
      ensures PhraseTyped(WirePhrases(ps)[i]) && ReadPhrase(WirePhrases(ps)[i]) == ps[i]
    {
      ReadPhraseInvertsWire(ps[i]);
    }
  }

  lemma CapIsIdentityExactlyIf(ps: seq<Phrase>, phrases: nat, users: nat)
    ensures Cap(ps, phrases, users) == ps <==> Fits(ps, phrases, users)
  {
    if Cap(ps, phrases, users) == ps {
      forall i | 0 <= i < |ps|
        ensures |ps[i].levels| <= users
      {
        assert Cap(ps, phrases, users)[i] == ps[i];
      }
    }
    if Fits(ps, phrases, users) {
      forall i | 0 <= i < |ps|
        ensures CapPhrase(ps[i], users) == ps[i]
      {
        assert ps[i] in ps;
        assert ps[i].levels[..|ps[i].levels|] == ps[i].levels;
      }
      assert Cap(ps, phrases, users) == ps;
    }
  }

  /**
   What arrives is what was sent exactly if it fits the receiver's arrays; otherwise the phrases that
   fit arrive in order, each with the levels that fit.
  */
  lemma RoundTrip(ps: seq<Phrase>, phrases: nat, users: nat)
    ensures Typed(WirePhrases(ps))
    ensures Cap(Read(WirePhrases(ps)), phrases, users) == ps <==> Fits(ps, phrases, users)
    ensures var got := Cap(Read(WirePhrases(ps)), phrases, users);
      && |got| == Min(|ps|, phrases)
      && forall i :: 0 <= i < |got| ==>
           && got[i].id == ps[i].id && got[i].modes == ps[i].modes && got[i].confidence == ps[i].confidence
           && got[i].levels <= ps[i].levels && |got[i].levels| == Min(|ps[i].levels|, users)
  {
    ReadInvertsWire(ps);
    CapIsIdentityExactlyIf(ps, phrases, users);
  }

  /** Between two sides with the same capacities nothing is lost: sender's structure to receiver's structure. */
  method Send(slots: array<Slot>, num: nat, phrases: nat, users: nat) returns (received: array<Slot>, got: nat)
    requires num <= slots.Length == phrases
    requires forall s :: s in slots[..num] ==> s.numLevels <= |s.levels| == users
    ensures got == num <= received.Length
    ensures forall s :: s in received[..got] ==> s.numLevels <= |s.levels| == users
    ensures Meanings(received[..got]) == Meanings(slots[..num])
  {
    var wire := Encode(slots, num);
    ghost var ps := Meanings(slots[..num]);
    received, got := Decode(wire, phrases, users);
    RoundTrip(ps, phrases, users);
    forall p | p in ps
      ensures |p.levels| <= users
    {
      var i :| 0 <= i < |ps| && ps[i] == p;
      assert slots[..num][i] in slots[..num];
    }
    assert Meanings(received[..got]) == ps;
    assert |Meanings(received[..got])| == got && |ps| == num;
  }

  // ---------------------------------------------------------------------------
  // Loading a model, a(uuauss)

  /** Of a model's phrase, all but its locale and text. */
  datatype ModelPhrase = ModelPhrase(id: nat, mode: nat, users: seq<nat>)

  datatype ModelSlot = ModelSlot(id: nat, mode: nat, numUsers: nat, users: seq<nat>, locale: string, text: string)

  function ModelMeaning(s: ModelSlot): ModelPhrase
    requires s.numUsers <= |s.users|
  {
    ModelPhrase(s.id, s.mode, s.users[..s.numUsers])
  }

  function ModelMeanings(slots: seq<ModelSlot>): seq<ModelPhrase>
    requires forall s :: s in slots ==> s.numUsers <= |s.users|
  {
    seq(|slots|, i requires 0 <= i < |slots| => ModelMeaning(slots[i]))
  }

  predicate UserTyped(v: Value) {
    v.U32?
  }

  predicate ModelTyped(v: Value) {
    && v.Struct? && |v.fields| == 5 && v.fields[0].U32? && v.fields[1].U32? && v.fields[2].Array?
    && v.fields[3].Str? && v.fields[4].Str?
    && forall j :: 0 <= j < |v.fields[2].items| ==> UserTyped(v.fields[2].items[j])
  }

  predicate ModelsTyped(wire: seq<Value>) {
    forall i :: 0 <= i < |wire| ==> ModelTyped(wire[i])
  }

  function ReadModel(v: Value): ModelPhrase
    requires ModelTyped(v)
  {
    var items := v.fields[2].items;
    ModelPhrase(v.fields[0].n, v.fields[1].n,
                seq(|items|, j requires 0 <= j < |items| => (assert UserTyped(items[j]); items[j].n)))
  }

  function ReadModels(wire: seq<Value>): seq<ModelPhrase>
    requires ModelsTyped(wire)
  {
    seq(|wire|, i requires 0 <= i < |wire| => ReadModel(wire[i]))
  }

  function CapModel(p: ModelPhrase, users: nat): ModelPhrase {
    p.(users := p.users[..Min(|p.users|, users)])
  }

  function CapModels(ps: seq<ModelPhrase>, phrases: nat, users: nat): seq<ModelPhrase> {
    seq(Min(|ps|, phrases), i requires 0 <= i < Min(|ps|, phrases) => CapModel(ps[i], users))
  }

  method EncodeModelPhrase(s: ModelSlot) returns (v: Value)
    requires s.numUsers <= |s.users|
    ensures ModelTyped(v) && ReadModel(v) == ModelMeaning(s)
  {
    var users := [];
    for j := 0 to s.numUsers
      invariant |users| == j
      invariant forall k :: 0 <= k < j ==> users[k] == U32(s.users[k])
    {
      users := users + [U32(s.users[j])];
    }
    v := Struct([U32(s.id), U32(s.mode), Array(users), Str(s.locale), Str(s.text)]);
  }

  method EncodeModel(slots: array<ModelSlot>, num: nat) returns (wire: seq<Value>)
    requires num <= slots.Length
    requires forall s :: s in slots[..num] ==> s.numUsers <= |s.users|
    ensures ModelsTyped(wire) && ReadModels(wire) == ModelMeanings(slots[..num])
  {
    wire := [];
    for i := 0 to num
      invariant ModelsTyped(wire) && ReadModels(wire) == ModelMeanings(slots[..i])
    {
      var v := EncodeModelPhrase(slots[i]);
      assert slots[..i + 1] == slots[..i] + [slots[i]];
      assert ReadModels(wire + [v]) == ReadModels(wire) + [ReadModel(v)];
      assert ModelMeanings(slots[..i + 1]) == ModelMeanings(slots[..i]) + [ModelMeaning(slots[i])];
      wire := wire + [v];
    }
  }

  method DecodeModelPhrase(v: Value, zero: ModelSlot, users: nat) returns (s: ModelSlot)
    requires ModelTyped(v) && zero.numUsers == 0 && |zero.users| == users
    ensures |s.users| == users && s.numUsers <= users && ModelMeaning(s) == CapModel(ReadModel(v), users)
  {
    s := zero.(id := v.fields[0].n);
    s := s.(mode := v.fields[1].n);
    var items := v.fields[2].items;
    var j := 0;
    while j < |items| && s.numUsers < users
      invariant 0 <= j <= |items| && s.numUsers == j <= users && |s.users| == users
      invariant s.id == v.fields[0].n && s.mode == v.fields[1].n
      invariant forall k :: 0 <= k < j ==> UserTyped(items[k]) && s.users[k] == items[k].n
    {
      assert UserTyped(items[j]);
      s := s.(users := s.users[j := items[j].n]);
      s := s.(numUsers := s.numUsers + 1);
      j := j + 1;
    }
    s := s.(locale := v.fields[3].text);
    s := s.(text := v.fields[4].text);
  }

  method DecodeModel(wire: seq<Value>, phrases: nat, users: nat) returns (slots: array<ModelSlot>, num: nat)
    requires ModelsTyped(wire)
    ensures fresh(slots) && slots.Length == phrases && num <= phrases
    ensures forall s :: s in slots[..num] ==> s.numUsers <= |s.users|
    ensures ModelMeanings(slots[..num]) == CapModels(ReadModels(wire), phrases, users)
  {
    var zero := ModelSlot(0, 0, 0, seq(users, _ => 0), "", "");
    slots := new ModelSlot[phrases](_ => zero);
    num := 0;
    var i := 0;
    while i < |wire| && num < phrases
      invariant 0 <= i <= |wire| && num == i <= phrases
      invariant forall k :: i <= k < phrases ==> slots[k] == zero
      invariant forall k :: 0 <= k < i ==>
        slots[k].numUsers <= |slots[k].users| && ModelMeaning(slots[k]) == CapModel(ReadModel(wire[k]), users)
    {
      slots[i] := DecodeModelPhrase(wire[i], slots[i], users);
      num := num + 1;
      i := i + 1;
    }
  }

  lemma ModelCapIsIdentityExactlyIf(ps: seq<ModelPhrase>, phrases: nat, users: nat)
    ensures CapModels(ps, phrases, users) == ps <==> |ps| <= phrases && forall p :: p in ps ==> |p.users| <= users
  {
    if CapModels(ps, phrases, users) == ps {
      forall i | 0 <= i < |ps|
        ensures |ps[i].users| <= users
      {
        assert CapModels(ps, phrases, users)[i] == ps[i];
      }
    }
    if |ps| <= phrases && forall p :: p in ps ==> |p.users| <= users {
      forall i | 0 <= i < |ps|
        ensures CapModel(ps[i], users) == ps[i]
      {
        assert ps[i] in ps;
        assert ps[i].users[..|ps[i].users|] == ps[i].users;
      }
      assert CapModels(ps, phrases, users) == ps;
    }
  }

  /** A model's phrases, users and modes survive the trip between two sides with the same capacities. */
  method SendModel(slots: array<ModelSlot>, num: nat, phrases: nat, users: nat)
    returns (received: array<ModelSlot>, got: nat)
    requires num <= slots.Length == phrases
    requires forall s :: s in slots[..num] ==> s.numUsers <= |s.users| == users
    ensures got == num <= received.Length
    ensures forall s :: s in received[..got] ==> s.numUsers <= |s.users|
    ensures ModelMeanings(received[..got]) == ModelMeanings(slots[..num])
  {
    var wire := EncodeModel(slots, num);
    ghost var ps := ModelMeanings(slots[..num]);
    received, got := DecodeModel(wire, phrases, users);
    forall p | p in ps
      ensures |p.users| <= users
    {
      var i :| 0 <= i < |ps| && ps[i] == p;
      assert slots[..num][i] in slots[..num];
    }
    ModelCapIsIdentityExactlyIf(ps, phrases, users);
    assert ModelMeanings(received[..got]) == ps;
    assert |ModelMeanings(received[..got])| == got && |ps| == num;
  }
}
