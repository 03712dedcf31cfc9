/**
 Parameters as text. The Bluetooth client prints "key=value" into a buffer of 35 bytes and sends it to the
 external-jack interface, which takes it apart with strtok_r and looks the key up in a table; the client
 takes its own commands apart in the same way. Strings here are the characters before a C string's NUL.
*/
module KeyValue {
  import opened Wrappers

  /** PA_PAL_JACK_PARAM_SIZE less the terminating NUL. */
  const ROOM := 34

  /** Index 0 of both tables is no key. */
  const JACK_KEYS: seq<string> := ["", "device_connection", "a2dp_suspend", "sample_rate"]
  const DEVICE_SAMPLERATE := 3

  const AUDIO_KEYS: seq<string> := [
    "", "btsink_enable", "btsink_volume", "btsink_mute", "btsink_get_volume", "hfp_enable", "hfp_sample_rate",
    "hfp_volume", "hfp_mic_volume", "hfp_spk_mute", "hfp_mic_mute", "hfp_get_sample_rate", "hfp_get_volume",
    "hfp_get_mic_volume", "bta2dp_suspend"]
  const HFP_SET_SAMPLING_RATE := 6

  // ---------------------------------------------------------------------------
  // strtok_r with "=" as its delimiters

  function SkipDelimiters(s: string): string {
    if s != "" && s[0] == '=' then SkipDelimiters(s[1..]) else s
  }

  /** The length of the text before the first '='. */
  function TokenLength(s: string): (n: nat)
    ensures n <= |s| && (n < |s| ==> s[n] == '=') && forall i :: 0 <= i < n ==> s[i] != '='
  {
    if s == "" || s[0] == '=' then 0 else 1 + TokenLength(s[1..])
  }

  /** A token, if there is one, and where to go on. */
  function Strtok(s: string): (Option<string>, string) {
    var t := SkipDelimiters(s);
    var n := TokenLength(t);
    if t == "" then (None, "") else (Some(t[..n]), if n == |t| then "" else t[n + 1..])
  }

  predicate Plain(s: string) {
    s != "" && '=' !in s
  }

  lemma {:induction false} TokenEndsAt(t: string, rest: string)
    requires '=' !in t
    ensures TokenLength(t + rest) == |t| + TokenLength(rest)
  {
    if t == "" {
      assert t + rest == rest;
    } else {
      assert (t + rest)[1..] == t[1..] + rest && (t + rest)[0] == t[0] && t[0] in t;
      TokenEndsAt(t[1..], rest);
    }
  }

  lemma StrtokTakes(t: string, rest: string)
    requires Plain(t)
    ensures Strtok(t) == (Some(t), "")
    ensures Strtok(t + "=" + rest) == (Some(t), rest)
  {
    TokenEndsAt(t, "");
    assert t + "" == t && t[0] in t;
    TokenEndsAt(t, "=" + rest);
    assert t + "=" + rest == t + ("=" + rest) && (t + "=" + rest)[0] == t[0];
    assert (t + "=" + rest)[..|t|] == t && (t + "=" + rest)[|t| + 1..] == rest;
  }

  // ---------------------------------------------------------------------------
  // Looking a key up

  predicate Distinct(names: seq<string>) {
    forall i, j :: 1 <= i < j < |names| ==> names[i] != names[j]
  }

  /** The loop runs to the first entry that matches, or to the end. */
  method ParseKeyIdx(names: seq<string>, key: string) returns (idx: int)
    requires |names| > 0
    ensures idx == KeyIdx(names, key)
  {
    idx := 1;
    while idx < |names|
      invariant 1 <= idx <= |names|
      invariant FirstFrom(names, key, 1) == FirstFrom(names, key, idx)
    {
      if key == names[idx] {
        break;
      }
      idx := idx + 1;
    }
    if !(idx > 0 && idx < |names|) {
      idx := -1;
    }
  }

  function FirstFrom(names: seq<string>, key: string, i: nat): nat
    decreases |names| - i
  {
    if i >= |names| || names[i] == key then i else FirstFrom(names, key, i + 1)
  }

  function KeyIdx(names: seq<string>, key: string): int {
    var i := FirstFrom(names, key, 1);
    if i < |names| then i else -1
  }

  lemma {:induction false} FirstFromFinds(names: seq<string>, key: string, i: nat)
    requires i <= |names|
    ensures i <= FirstFrom(names, key, i) <= |names|
    ensures FirstFrom(names, key, i) < |names| ==> names[FirstFrom(names, key, i)] == key
    ensures forall k :: i <= k < FirstFrom(names, key, i) ==> names[k] != key
    decreases |names| - i
  {
    if i < |names| && names[i] != key {
      FirstFromFinds(names, key, i + 1);
    }
  }

  /** In a table without repetitions the lookup is the inverse of the table, and other names get -1. */
  lemma LookupInvertsTable(names: seq<string>, key: string, k: int)
    requires Distinct(names) && |names| > 0
    ensures KeyIdx(names, key) == k && k != -1 <==> 1 <= k < |names| && names[k] == key
    ensures KeyIdx(names, key) == -1 <==> key !in names[1..]
  {
    FirstFromFinds(names, key, 1);
  }

  lemma JackKeysAreDistinct()
    ensures Distinct(JACK_KEYS)
    ensures forall k :: 1 <= k < |JACK_KEYS| ==> Plain(JACK_KEYS[k]) && |JACK_KEYS[k]| < ROOM - 1
  {
  }

  lemma AudioKeysAreDistinct()
    ensures Distinct(AUDIO_KEYS)
  {
  }

  // ---------------------------------------------------------------------------
  // Taking a pair apart

  datatype Pair = Pair(key: int, value: string)

  function Parse(names: seq<string>, text: string): Option<Pair> {
    var (key, rest) := Strtok(text);
    if key.None? then None
    else
      var k := KeyIdx(names, key.value);
      if k == -1 then None
      else
        var (value, _) := Strtok(rest);
        if value.None? then None else Some(Pair(k, value.value))
  }

  method ParseKvPair(names: seq<string>, text: string) returns (pair: Option<Pair>)
    requires |names| > 0
    ensures pair == Parse(names, text)
  {
    var (key, rest) := Strtok(text);
    if key.None? {
      return None;
    }
    var k := ParseKeyIdx(names, key.value);
    if k != -1 {
      var (value, _) := Strtok(rest);
      if value.None? {
        return None;
      }
      return Some(Pair(k, value.value));
    }
    return None;
  }

  /** A pair is read exactly if its key is in the table and its value has a token; a key alone is none. */
  lemma PairReadExactlyIf(names: seq<string>, key: string, text: string)
    requires Distinct(names) && |names| > 0 && Plain(key)
    ensures Parse(names, key) == None
    ensures Parse(names, key + "=" + text) == None <==> key !in names[1..] || forall c :: c in text ==> c == '='
    ensures Parse(names, key + "=" + text).Some? ==>
      var pair := Parse(names, key + "=" + text).value;
      1 <= pair.key < |names| && names[pair.key] == key && Strtok(text).0 == Some(pair.value)
  {
    StrtokTakes(key, text);
    LookupInvertsTable(names, key, KeyIdx(names, key));
    StrtokIsWholeExactlyIf(text);
    assert Strtok("").0 == None;
    hide Strtok, KeyIdx, Distinct;
  }

  // ---------------------------------------------------------------------------
  // Printing

  function Cut(s: string, n: nat): string {
    if |s| <= n then s else s[..n]
  }

  /** snprintf of "key=%s" into the client's buffer. */
  function Print(key: string, value: string): string {
    Cut(key + "=" + value, ROOM)
  }

  /** What of a value is printed after its key. */
  function Printed(key: string, value: string): string
    requires |key| < ROOM
  {
    Cut(value, ROOM - 1 - |key|)
  }

  lemma PrintIs(key: string, value: string)
    requires |key| < ROOM
    ensures Print(key, value) == key + "=" + Printed(key, value)
  {
    var s := key + "=" + value;
    if |s| > ROOM {
      assert s[..ROOM] == key + "=" + value[..ROOM - 1 - |key|];
    }
  }

  /** Whatever the value: the pair that comes back is the key and the first token of what was printed. */
  lemma ParsePrinted(k: int, value: string)
    requires 1 <= k < |JACK_KEYS|
    ensures |JACK_KEYS[k]| < ROOM - 1
    ensures var token := Strtok(Printed(JACK_KEYS[k], value)).0;
      Parse(JACK_KEYS, Print(JACK_KEYS[k], value)) ==
      if token.None? then None else Some(Pair(k, token.value))
  {
    JackKeysAreDistinct();
    var key := JACK_KEYS[k];
    PrintIs(key, value);
    StrtokTakes(key, Printed(key, value));
    LookupInvertsTable(JACK_KEYS, key, k);
    hide Strtok, KeyIdx, Print, Printed;
  }

  lemma {:induction false} SkipAll(s: string)
    ensures SkipDelimiters(s) == "" <==> forall c :: c in s ==> c == '='
    ensures SkipDelimiters(s) != "" ==> SkipDelimiters(s)[0] != '=' && |SkipDelimiters(s)| <= |s|
    ensures |SkipDelimiters(s)| == |s| <==> s == "" || s[0] != '='
  {
    if s != "" && s[0] == '=' {
      SkipAll(s[1..]);
      assert s == [s[0]] + s[1..];
      assert forall c :: c in s <==> c == s[0] || c in s[1..];
    } else if s != "" {
      assert s[0] in s;
    }
  }

  lemma StrtokIsWholeExactlyIf(s: string)
    ensures Strtok(s).0 == Some(s) <==> Plain(s)
    ensures Strtok(s).0 == None <==> forall c :: c in s ==> c == '='
    ensures Strtok(s).0.Some? ==> |Strtok(s).0.value| <= |s|
  {
    SkipAll(s);
    var t := SkipDelimiters(s);
    if Strtok(s).0 == Some(s) {
      assert |t| >= |s|;
      assert |t| == |s| && TokenLength(t) == |s|;
      assert t[..|t|] == t;
      assert s[0] != '=';
      assert t == s;
    }
    if Plain(s) {
      StrtokTakes(s, "");
    }
  }

  lemma PrintedPlain(key: string, value: string)
    requires |key| < ROOM - 1
    ensures Plain(value) ==> Plain(Printed(key, value))
    ensures if |value| < ROOM - |key| then Printed(key, value) == value else |Printed(key, value)| < |value|
  {
    var n := ROOM - 1 - |key|;
    if |value| > n {
      assert forall c :: c in value[..n] ==> c in value;
    }
  }

  /**
   The value comes back as printed exactly if what was printed is not empty and holds no '='; and the
   whole value comes back exactly if it also fits. Nothing comes back exactly if only '=' was printed.
  */
  lemma RoundTrip(k: int, value: string)
    requires 1 <= k < |JACK_KEYS|
    ensures |JACK_KEYS[k]| < ROOM - 1
    ensures var printed := Printed(JACK_KEYS[k], value);
      var back := Parse(JACK_KEYS, Print(JACK_KEYS[k], value));
      && (back == Some(Pair(k, printed)) <==> Plain(printed))
      && (back == Some(Pair(k, value)) <==> Plain(value) && |value| < ROOM - |JACK_KEYS[k]|)
      && (back == None <==> forall c :: c in printed ==> c == '=')
      && (Plain(value) ==> back == Some(Pair(k, printed)))
  {
    ParsePrinted(k, value);
    var printed := Printed(JACK_KEYS[k], value);
    StrtokIsWholeExactlyIf(printed);
    PrintedPlain(JACK_KEYS[k], value);
    hide Strtok, Parse, Print, Printed, Plain;
  }

  lemma CommandParses(k: int, value: string)
    requires 1 <= k < |AUDIO_KEYS| && Plain(AUDIO_KEYS[k]) && Plain(value)
    ensures Parse(AUDIO_KEYS, AUDIO_KEYS[k] + "=" + value) == Some(Pair(k, value))
  {
    AudioKeysAreDistinct();
    var name := AUDIO_KEYS[k];
    StrtokTakes(name, value);
    StrtokTakes(value, "");
    LookupInvertsTable(AUDIO_KEYS, name, k);
    hide Strtok, KeyIdx;
  }

  /**
   From the client's command to the server: "hfp_sample_rate=v" reaches the server as the sample-rate key
   with the same value, for every value without '=' that fits after "sample_rate=".
  */
  lemma SampleRateReachesTheServer(value: string)
    requires Plain(value) && |value| <= 22
    ensures var command := Parse(AUDIO_KEYS, "hfp_sample_rate" + "=" + value);
      && command == Some(Pair(HFP_SET_SAMPLING_RATE, value))
      && Parse(JACK_KEYS, Print("sample_rate", command.value.value)) == Some(Pair(DEVICE_SAMPLERATE, value))
  {
    assert AUDIO_KEYS[HFP_SET_SAMPLING_RATE] == "hfp_sample_rate" && JACK_KEYS[DEVICE_SAMPLERATE] == "sample_rate";
    assert Plain(AUDIO_KEYS[HFP_SET_SAMPLING_RATE]);
    hide Parse, Print, Strtok;
    CommandParses(HFP_SET_SAMPLING_RATE, value);
    RoundTrip(DEVICE_SAMPLERATE, value);
  }
}
