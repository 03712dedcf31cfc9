/**
 Hot-plug messages for the HDMI output. A kernel message is scanned for its last NAME=, HDMI= and DP=
 values, skipping ahead over each keyword found; the values give a verdict (plugged, unplugged or no
 news), and the verdicts drive an edge-triggered state machine that reports changes.
*/
module UeventScanner {
  import opened Wrappers

  const NUL: char := '\0'
  const NAME := "NAME="
  const HDMI := "HDMI="
  const DP := "DP="
  const SWITCH_NAME := "soc:qcom,msm-ext-disp"

  /** The bytes received with the two NUL bytes put after them. */
  function Buffer(msg: string): string {
    msg + [NUL, NUL]
  }

  /** strncmp of the text at `i` against the whole of `word`: equal, before the end of the buffer. */
  predicate At(s: string, i: nat, word: string) {
    i + |word| <= |s| && s[i..i + |word|] == word
  }

  // ---------------------------------------------------------------------------
  // The scan

  /** The naive test of every position below `n`: where the value of the last occurrence begins. */
  function Last(s: string, n: nat, word: string): Option<nat> {
    if n == 0 then None
    else if At(s, n - 1, word) then Some(n - 1 + |word|)
    else Last(s, n - 1, word)
  }

  lemma LastIsTheLast(s: string, n: nat, word: string)
    ensures Last(s, n, word).None? <==> forall i :: 0 <= i < n ==> !At(s, i, word)
    ensures Last(s, n, word).Some? ==>
      var i := Last(s, n, word).value - |word|;
      0 <= i < n && At(s, i, word) && forall k :: i < k < n ==> !At(s, k, word)
  {
  }

  lemma {:induction false} LastSkips(s: string, n: nat, m: nat, word: string)
    requires n <= m && forall k :: n <= k < m ==> !At(s, k, word)
    ensures Last(s, m, word) == Last(s, n, word)
    decreases m - n
  {
    if n < m {
      LastSkips(s, n, m - 1, word);
    }
  }

  lemma AtChar(s: string, i: nat, word: string, d: nat)
    requires d < |word|
    ensures At(s, i, word) ==> i + d < |s| && s[i + d] == word[d]
  {
    assert At(s, i, word) ==> s[i..i + |word|][d] == word[d];
  }

  /** A keyword lies inside the message, since no keyword has a NUL in it. */
  lemma KeywordEndsInMessage(msg: string, i: nat, word: string)
    requires word in {NAME, HDMI, DP} && i < |msg| && At(Buffer(msg), i, word)
    ensures i + |word| <= |msg|
  {
    AtChar(Buffer(msg), i, word, if |msg| - i < |word| then |msg| - i else 0);
  }

  /** No keyword begins inside another one. */
  lemma NoKeywordInside(s: string, i: nat, found: string, k: nat, word: string)
    requires found in {NAME, HDMI, DP} && word in {NAME, HDMI, DP} && At(s, i, found) && i <= k < i + |found|
    requires k == i ==> word != found
    ensures !At(s, k, word)
  {
    AtChar(s, i, found, k - i);
    AtChar(s, i, found, if k - i + 1 < |found| then k - i + 1 else 0);
    AtChar(s, k, word, 0);
    AtChar(s, k, word, 1);
  }

  datatype Found = Found(name: Option<nat>, hdmi: Option<nat>, dp: Option<nat>)

  function NaiveScan(msg: string): Found {
    var s := Buffer(msg);
    Found(Last(s, |msg|, NAME), Last(s, |msg|, HDMI), Last(s, |msg|, DP))
  }

  lemma ScanSkips(s: string, j: nat, found: string, word: string)
    requires found in {NAME, HDMI, DP} && word in {NAME, HDMI, DP} && At(s, j, found)
    ensures Last(s, j + |found|, word) == if word == found then Some(j + |found|) else Last(s, j, word)
  {
    forall k | j <= k < j + |found| && (k == j ==> word != found)
      ensures !At(s, k, word)
    {
      NoKeywordInside(s, j, found, k, word);
    }
    if word == found {
      LastSkips(s, j + 1, j + |found|, word);
    } else {
      LastSkips(s, j, j + |found|, word);
    }
  }

  /** Where the last occurrences below `j` are, of all three keywords. */
  predicate FoundBelow(s: string, j: nat, found: Found) {
    found == Found(Last(s, j, NAME), Last(s, j, HDMI), Last(s, j, DP))
  }

  lemma NothingBelowZero(s: string)
    ensures FoundBelow(s, 0, Found(None, None, None))
  {
  }

  lemma StepOverOne(s: string, j: nat, found: Found)
    requires FoundBelow(s, j, found) && !At(s, j, NAME) && !At(s, j, HDMI) && !At(s, j, DP)
    ensures FoundBelow(s, j + 1, found)
  {
    hide At;
  }

  lemma StepOverKeyword(msg: string, j: nat, found: Found, word: string)
    requires word in {NAME, HDMI, DP} && j < |msg| && At(Buffer(msg), j, word) && FoundBelow(Buffer(msg), j, found)
    ensures j + |word| <= |msg|
    ensures FoundBelow(Buffer(msg), j + |word|, Found(
              if word == NAME then Some(j + |word|) else found.name,
              if word == HDMI then Some(j + |word|) else found.hdmi,
              if word == DP then Some(j + |word|) else found.dp))
  {
    KeywordEndsInMessage(msg, j, word);
    ScanSkips(Buffer(msg), j, word, NAME);
    ScanSkips(Buffer(msg), j, word, HDMI);
    ScanSkips(Buffer(msg), j, word, DP);
    hide Last, At, Buffer;
  }

  /** The scan of the source: it never runs past the message and finds what the naive scan finds. */
  method Scan(msg: string) returns (found: Found)
    ensures found == NaiveScan(msg)
  {
    var buffer, count := Buffer(msg), |msg|;
    var name: Option<nat>, hdmi: Option<nat>, dp: Option<nat> := None, None, None;
    var j := 0;
    NothingBelowZero(buffer);
    while j < count
      invariant 0 <= j <= count
      invariant FoundBelow(buffer, j, Found(name, hdmi, dp))
      decreases count - j
    {
      hide At, Buffer, FoundBelow, Last;
      ghost var before := Found(name, hdmi, dp);
      if At(buffer, j, NAME) {
        StepOverKeyword(msg, j, before, NAME);
        name := Some(j + |NAME|);
        j := j + |NAME|;
        continue;
      } else if At(buffer, j, HDMI) {
        StepOverKeyword(msg, j, before, HDMI);
        hdmi := Some(j + |HDMI|);
        j := j + |HDMI|;
        continue;
      } else if At(buffer, j, DP) {
        StepOverKeyword(msg, j, before, DP);
        dp := Some(j + |DP|);
        j := j + |DP|;
        continue;
      }
      StepOverOne(buffer, j, before);
      j := j + 1;
    }
    found := Found(name, hdmi, dp);
  }

  // ---------------------------------------------------------------------------
  // The verdict

  predicate IsDigit(c: char) {
    '0' <= c <= '9'
  }

  predicate IsSpace(c: char) {
    c == ' ' || '\t' <= c <= '\r'
  }

  function Digits(s: string, i: nat, acc: nat): nat
    decreases |s| - i
  {
    if i < |s| && IsDigit(s[i]) then Digits(s, i + 1, acc * 10 + (s[i] as int - '0' as int)) else acc
  }

  /** atoi on the text at `i`, for values that fit an int. */
  function Atoi(s: string, i: nat): int
    decreases |s| - i
  {
    if i >= |s| then 0
    else if IsSpace(s[i]) then Atoi(s, i + 1)
    else if s[i] == '-' then 0 - Digits(s, i + 1, 0)
    else if s[i] == '+' then Digits(s, i + 1, 0)
    else Digits(s, i, 0)
  }

  /** The decimal digits of a number. */
  function Decimal(n: nat): (d: string)
    ensures |d| > 0 && d[0] in "0123456789"
  {
    if n < 10 then [("0123456789")[n]] else Decimal(n / 10) + [("0123456789")[n % 10]]
  }

  lemma DigitIs(s: string, i: nat, d: nat, acc: nat)
    requires i < |s| && d < 10 && s[i] == ("0123456789")[d]
    ensures Digits(s, i, acc) == Digits(s, i + 1, acc * 10 + d)
  {
  }

  lemma AtPrefix(s: string, i: nat, word: string, more: string)
    requires At(s, i, word + more)
    ensures At(s, i, word)
  {
    assert s[i..i + |word|] == s[i..i + |word + more|][..|word|];
  }

  lemma {:induction false} DigitsRead(s: string, i: nat, n: nat)
    requires At(s, i, Decimal(n))
    ensures Digits(s, i, 0) == Digits(s, i + |Decimal(n)|, n)
    decreases n
  {
    hide Digits, At;
    var last := i + |Decimal(n)| - 1;
    AtChar(s, i, Decimal(n), |Decimal(n)| - 1);
    if n >= 10 {
      AtPrefix(s, i, Decimal(n / 10), [("0123456789")[n % 10]]);
      DigitsRead(s, i, n / 10);
    }
    DigitIs(s, last, n % 10, if n < 10 then 0 else n / 10);
  }

  /** White space, as C has it. */
  predicate AllSpace(s: string, i: nat, j: nat) {
    i <= j <= |s| && forall k :: i <= k < j ==> s[k] in " \t\n\U{0b}\U{0c}\r"
  }

  lemma {:induction false} SpaceIsSkipped(s: string, i: nat, j: nat)
    requires AllSpace(s, i, j)
    ensures Atoi(s, i) == Atoi(s, j)
    decreases j - i
  {
    if i < j {
      SpaceIsSkipped(s, i + 1, j);
    }
  }

  lemma AtoiSigned(s: string, j: nat, sign: string)
    requires sign in {"", "+", "-"} && At(s, j, sign) && j + |sign| < |s| && IsDigit(s[j + |sign|])
    ensures var n := Digits(s, j + |sign|, 0); Atoi(s, j) == if sign == "-" then 0 - n else n
  {
    if sign != "" {
      assert s[j..j + 1][0] == s[j];
    }
  }

  lemma DecimalBegins(s: string, i: nat, n: nat)
    requires At(s, i, Decimal(n))
    ensures |Decimal(n)| <= |s| - i && IsDigit(s[i])
  {
    AtChar(s, i, Decimal(n), 0);
  }

  lemma DigitsAreThese(c: char)
    ensures IsDigit(c) <==> c in "0123456789"
  {
    if IsDigit(c) {
      assert ("0123456789")[c as int - '0' as int] == c;
    }
  }

  lemma DigitsEnd(s: string, i: nat, acc: nat)
    requires i < |s| ==> s[i] !in "0123456789"
    ensures Digits(s, i, acc) == acc
  {
    if i < |s| {
      DigitsAreThese(s[i]);
    }
  }

  /** A number printed in decimal, after white space and with or without a sign, is read back. */
  lemma AtoiReadsNumbers(s: string, i: nat, j: nat, sign: string, n: nat)
    requires AllSpace(s, i, j) && sign in {"", "+", "-"} && At(s, j, sign) && At(s, j + |sign|, Decimal(n))
    requires var end := j + |sign| + |Decimal(n)|; end < |s| ==> s[end] !in "0123456789"
    ensures Atoi(s, i) == if sign == "-" then 0 - n else n
  {
    hide *;
    SpaceIsSkipped(s, i, j);
    DecimalBegins(s, j + |sign|, n);
    AtoiSigned(s, j, sign);
    DigitsRead(s, j + |sign|, n);
    DigitsEnd(s, j + |sign| + |Decimal(n)|, n);
  }

  /** Where there is no number, atoi gives 0, and the code takes it for one. */
  lemma AtoiOfNoNumberIsZero(s: string, i: nat, j: nat, sign: string)
    requires AllSpace(s, i, j) && sign in {"", "+", "-"} && At(s, j, sign)
    requires var k := j + |sign|;
      k < |s| ==> s[k] !in "0123456789" && (sign == "" ==> s[k] !in " \t\n\U{0b}\U{0c}\r+-")
    ensures Atoi(s, i) == 0
  {
    SpaceIsSkipped(s, i, j);
    if sign != "" {
      assert s[j..j + 1][0] == s[j];
    }
  }

  datatype Verdict = Plugged | Unplugged | NoNews

  /** A found switch whose value is `v`. */
  predicate Reads(s: string, at: Option<nat>, v: int) {
    at.Some? && Atoi(s, at.value) == v
  }

  function Judge(msg: string, f: Found): Verdict {
    var s := Buffer(msg);
    if f.name.None? || (f.hdmi.None? && f.dp.None?) then NoNews
    else if !At(s, f.name.value, SWITCH_NAME) then NoNews
    else if Reads(s, f.hdmi, 1) || Reads(s, f.dp, 1) then Plugged
    else if Reads(s, f.hdmi, 0) && Reads(s, f.dp, 0) then Unplugged
    else NoNews
  }

  ghost predicate IsLastAt(msg: string, i: nat, word: string) {
    i < |msg| && At(Buffer(msg), i, word) && forall k :: i < k < |msg| ==> !At(Buffer(msg), k, word)
  }

  /** The message has the keyword, and its last value is `v`. */
  ghost predicate Says(msg: string, word: string, v: int) {
    exists i: nat :: IsLastAt(msg, i, word) && Atoi(Buffer(msg), i + |word|) == v
  }

  ghost predicate AboutTheSwitch(msg: string) {
    exists i: nat :: IsLastAt(msg, i, NAME) && At(Buffer(msg), i + |NAME|, SWITCH_NAME)
  }

  lemma LastExactly(msg: string, word: string)
    ensures forall i: nat :: IsLastAt(msg, i, word) ==> Last(Buffer(msg), |msg|, word) == Some(i + |word|)
    ensures Last(Buffer(msg), |msg|, word).Some? ==>
      && |word| <= Last(Buffer(msg), |msg|, word).value
      && IsLastAt(msg, Last(Buffer(msg), |msg|, word).value - |word|, word)
  {
    hide Last, At, Buffer;
    LastIsTheLast(Buffer(msg), |msg|, word);
    forall i: nat | IsLastAt(msg, i, word)
      ensures Last(Buffer(msg), |msg|, word) == Some(i + |word|)
    {
      LastIsUnique(Buffer(msg), |msg|, i, word);
    }
  }

  lemma LastIsUnique(s: string, n: nat, i: nat, word: string)
    requires i < n && At(s, i, word) && forall k :: i < k < n ==> !At(s, k, word)
    ensures Last(s, n, word) == Some(i + |word|)
  {
    hide At;
    LastSkips(s, i + 1, n, word);
  }

  lemma ReadsExactly(msg: string, word: string, v: int)
    ensures Reads(Buffer(msg), Last(Buffer(msg), |msg|, word), v) <==> Says(msg, word, v)
  {
    LastExactly(msg, word);
    hide Last, Atoi, IsLastAt, Buffer;
  }

  lemma SwitchExactly(msg: string)
    ensures AboutTheSwitch(msg) <==>
      NaiveScan(msg).name.Some? && At(Buffer(msg), NaiveScan(msg).name.value, SWITCH_NAME)
  {
    LastExactly(msg, NAME);
    hide Last, IsLastAt, Buffer, At;
  }

  /**
   The verdict on a message, by its last values alone: plugged if either switch reads 1, unplugged only
   if both are there and read 0, and no news from messages about anything else.
  */
  lemma VerdictExactly(msg: string)
    ensures Judge(msg, NaiveScan(msg)) == Plugged <==> AboutTheSwitch(msg) && (Says(msg, HDMI, 1) || Says(msg, DP, 1))
    ensures Judge(msg, NaiveScan(msg)) == Unplugged <==> AboutTheSwitch(msg) && Says(msg, HDMI, 0) && Says(msg, DP, 0)
  {
    SwitchExactly(msg);
    ReadsExactly(msg, HDMI, 0);
    ReadsExactly(msg, HDMI, 1);
    ReadsExactly(msg, DP, 0);
    ReadsExactly(msg, DP, 1);
    hide Last, Atoi, At, Says, AboutTheSwitch, Buffer;
  }

  // ---------------------------------------------------------------------------
  // The jack

  datatype Status = Error | Available | Unavailable

  datatype Event = JackAvailable | JackUnavailable | ConfigUpdate

  /** `log` is what the hook has fired. */
  datatype Jack = Jack(status: Status, log: seq<Event>)

  function Announce(j: Jack): Jack {
    Jack(Available, j.log + [JackAvailable, ConfigUpdate])
  }

  /** When detection is enabled: the state files are read once. */
  function CheckConnection(j: Jack, audioPath: int, txState: int): Jack {
    if audioPath == 1 then j
    else
      var u := j.(status := Unavailable);
      if txState == 1 then Announce(u) else u
  }

  function React(j: Jack, v: Verdict): Jack {
    if v == Plugged && j.status != Available then Announce(j)
    else if v == Unplugged && j.status != Unavailable then Jack(Unavailable, j.log + [JackUnavailable])
    else j
  }

  function Receive(j: Jack, msg: string): Jack {
    if |msg| > 0 then React(j, Judge(msg, NaiveScan(msg))) else j
  }

  function ReceiveAll(j: Jack, msgs: seq<string>): Jack
    decreases |msgs|
  {
    if msgs == [] then j else Receive(ReceiveAll(j, msgs[..|msgs| - 1]), msgs[|msgs| - 1])
  }

  /** The availability events of a log, in order. */
  function Availability(log: seq<Event>): seq<Event>
    decreases |log|
  {
    if log == [] then []
    else
      var front, last := Availability(log[..|log| - 1]), log[|log| - 1];
      if last == ConfigUpdate then front else front + [last]
  }

  predicate Alternates(s: seq<Event>) {
    forall i :: 0 <= i < |s| - 1 ==> s[i] != s[i + 1]
  }

  /** Every JackAvailable is at once followed by a ConfigUpdate, and no ConfigUpdate comes otherwise. */
  predicate Configured(log: seq<Event>) {
    && (log != [] ==> log[0] != ConfigUpdate && log[|log| - 1] != JackAvailable)
    && forall i :: 0 <= i < |log| - 1 ==> (log[i] == JackAvailable <==> log[i + 1] == ConfigUpdate)
  }

  /** The jack is available exactly if that is what was last reported. */
  predicate Reported(j: Jack) {
    var a := Availability(j.log);
    if a == [] then j.status != Available
    else a[|a| - 1] == if j.status == Available then JackAvailable else JackUnavailable
  }

  predicate Inv(j: Jack) {
    && Alternates(Availability(j.log)) && Configured(j.log) && Reported(j)
    && (j.status == Error ==> j.log == [])
  }

  lemma AvailabilitySnoc(log: seq<Event>, e: Event)
    ensures Availability(log + [e]) == if e == ConfigUpdate then Availability(log) else Availability(log) + [e]
  {
    assert (log + [e])[..|log|] == log;
  }

  lemma AnnounceAvailability(log: seq<Event>)
    ensures Availability(log + [JackAvailable, ConfigUpdate]) == Availability(log) + [JackAvailable]
  {
    AvailabilitySnoc(log, JackAvailable);
    AvailabilitySnoc(log + [JackAvailable], ConfigUpdate);
    assert log + [JackAvailable] + [ConfigUpdate] == log + [JackAvailable, ConfigUpdate];
  }

  lemma AnnounceConfigured(log: seq<Event>)
    requires Configured(log)
    ensures Configured(log + [JackAvailable, ConfigUpdate])
  {
  }

  lemma AnnounceKeeps(j: Jack)
    requires Inv(j) && j.status != Available
    ensures Inv(Announce(j))
  {
    AnnounceAvailability(j.log);
    AnnounceConfigured(j.log);
    hide Availability, Configured;
  }

  lemma ReactKeeps(j: Jack, v: Verdict)
    requires Inv(j)
    ensures Inv(React(j, v))
  {
    if v == Plugged && j.status != Available {
      AnnounceKeeps(j);
    } else if v == Unplugged && j.status != Unavailable {
      AvailabilitySnoc(j.log, JackUnavailable);
      assert Configured(j.log + [JackUnavailable]);
      hide Availability, Configured;
    }
  }

  function NewJack(): Jack {
    Jack(Error, [])
  }

  lemma {:induction false} RunKeeps(j: Jack, msgs: seq<string>)
    requires Inv(j)
    ensures Inv(ReceiveAll(j, msgs))
    decreases |msgs|
  {
    hide Inv, Judge, React, NaiveScan;
    if msgs != [] {
      RunKeeps(j, msgs[..|msgs| - 1]);
      ReactKeeps(ReceiveAll(j, msgs[..|msgs| - 1]), Judge(msgs[|msgs| - 1], NaiveScan(msgs[|msgs| - 1])));
    }
  }

  lemma CheckKeeps(audioPath: int, txState: int)
    ensures Inv(CheckConnection(NewJack(), audioPath, txState))
  {
    var u := NewJack().(status := Unavailable);
    assert Inv(u);
    AnnounceKeeps(u);
    hide Inv;
  }

  /**
   Whatever the state files say and whatever messages come, changes are reported once each, with their
   configuration.
  */
  lemma EdgesOnly(audioPath: int, txState: int, msgs: seq<string>)
    ensures var j := ReceiveAll(CheckConnection(NewJack(), audioPath, txState), msgs);
      Alternates(Availability(j.log)) && Configured(j.log) && Reported(j)
  {
    CheckKeeps(audioPath, txState);
    RunKeeps(CheckConnection(NewJack(), audioPath, txState), msgs);
    hide ReceiveAll, Alternates, Configured, Availability, Reported;
  }

  /** The last message with news, if any. */
  function LastNews(msgs: seq<string>): Verdict
    decreases |msgs|
  {
    if msgs == [] then NoNews
    else
      var msg := msgs[|msgs| - 1];
      if |msg| > 0 && Judge(msg, NaiveScan(msg)) != NoNews then Judge(msg, NaiveScan(msg))
      else LastNews(msgs[..|msgs| - 1])
  }

  /** After any messages the jack's status is what the last message with news said. */
  lemma {:induction false} StatusIsTheLastNews(j: Jack, msgs: seq<string>)
    ensures ReceiveAll(j, msgs).status ==
      match LastNews(msgs) case Plugged => Available case Unplugged => Unavailable case NoNews => j.status
    decreases |msgs|
  {
    hide Judge, NaiveScan;
    if msgs != [] {
      StatusIsTheLastNews(j, msgs[..|msgs| - 1]);
    }
  }

  /** The status that the state files and the messages leave, by what they say last. */
  function StatusTold(audioPath: int, txState: int, msgs: seq<string>): Status {
    match LastNews(msgs)
    case Plugged => Available
    case Unplugged => Unavailable
    case NoNews => if audioPath == 1 then Error else if txState == 1 then Available else Unavailable
  }

  /** How often what is told changes; what the state files say counts if it is that the jack is available. */
  function Changes(audioPath: int, txState: int, msgs: seq<string>): nat
    decreases |msgs|
  {
    if msgs == [] then if StatusTold(audioPath, txState, []) == Available then 1 else 0
    else
      Changes(audioPath, txState, msgs[..|msgs| - 1])
      + if StatusTold(audioPath, txState, msgs) == StatusTold(audioPath, txState, msgs[..|msgs| - 1]) then 0 else 1
  }

  lemma ReactReports(j: Jack, v: Verdict)
    ensures j.log <= React(j, v).log
    ensures |Availability(React(j, v).log)| == |Availability(j.log)| + if React(j, v).status == j.status then 0 else 1
  {
    AnnounceAvailability(j.log);
    AvailabilitySnoc(j.log, JackUnavailable);
    hide Availability;
  }

  /**
   Whatever the state files say and whatever messages come: the status is what was told last, and every change of
   it, and nothing else, has been reported.
  */
  lemma {:induction false} EveryChangeIsReported(audioPath: int, txState: int, msgs: seq<string>)
    ensures var j := ReceiveAll(CheckConnection(NewJack(), audioPath, txState), msgs);
      && j.status == StatusTold(audioPath, txState, msgs)
      && |Availability(j.log)| == Changes(audioPath, txState, msgs)
    decreases |msgs|
  {
    if msgs == [] {
      StartIsReported(audioPath, txState);
    } else {
      hide Judge, NaiveScan, CheckConnection, Availability, React;
      var front, msg := msgs[..|msgs| - 1], msgs[|msgs| - 1];
      var j := ReceiveAll(CheckConnection(NewJack(), audioPath, txState), front);
      EveryChangeIsReported(audioPath, txState, front);
      ReactReports(j, Judge(msg, NaiveScan(msg)));
      ToldAfterOneMore(j, audioPath, txState, msgs);
      hide StatusTold;
    }
  }

  lemma StartIsReported(audioPath: int, txState: int)
    ensures var j := CheckConnection(NewJack(), audioPath, txState);
      && j.status == StatusTold(audioPath, txState, [])
      && |Availability(j.log)| == Changes(audioPath, txState, [])
  {
    AnnounceAvailability([]);
    assert [] + [JackAvailable, ConfigUpdate] == [JackAvailable, ConfigUpdate];
  }

  lemma ToldAfterOneMore(j: Jack, audioPath: int, txState: int, msgs: seq<string>)
    requires msgs != [] && j.status == StatusTold(audioPath, txState, msgs[..|msgs| - 1])
    ensures Receive(j, msgs[|msgs| - 1]).status == StatusTold(audioPath, txState, msgs)
  {
    hide Judge, NaiveScan;
  }

  // ---------------------------------------------------------------------------
  // The jack as the source keeps it

  class HdmiOutJack {
    var status: Status
    /** What the event hook has fired. */
    ghost var log: seq<Event>

    ghost function View(): Jack
      reads this
    {
      Jack(status, log)
    }

    constructor ()
      ensures View() == NewJack()
    {
      status, log := Error, [];
    }

    method RaiseAvailable()
      modifies this
      ensures View() == Announce(old(View()))
    {
      log := log + [JackAvailable];
      status := Available;
      log := log + [ConfigUpdate];
    }

    method CheckHdmiOutConnection(audioPath: int, txState: int)
      modifies this
      ensures View() == CheckConnection(old(View()), audioPath, txState)
    {
      if audioPath == 1 {
        return;
      }
      status := Unavailable;
      if txState == 1 {
        RaiseAvailable();
      }
    }

    method IoCallback(msg: string)
      modifies this
      ensures View() == Receive(old(View()), msg)
    {
      if |msg| > 0 {
        var found := Scan(msg);
        var verdict := Judge(msg, found);
        hide Judge, NaiveScan;
        if verdict == Plugged && status != Available {
          RaiseAvailable();
        } else if verdict == Unplugged && status != Unavailable {
          log := log + [JackUnavailable];
          status := Unavailable;
        }
      }
    }
  }
}
