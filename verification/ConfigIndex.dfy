/**
 The card configuration's cross-index. A configuration line names a section ("Profile x", "Sink y", ...)
 and is handled by a callback, which finds the section's entry or creates it. The callback for port names
 files each port under its profile, sink or source, and for a sink or source also files every profile
 that has the port, counting sinks and sources per profile.
*/
module ConfigIndex {
  import opened Wrappers

  // ---------------------------------------------------------------------------
  // Section names

  datatype Kind = PortSection | ProfileSection | SinkSection | SourceSection | LoopbackSection

  function Prefix(k: Kind): string {
    match k
    case PortSection => "Port "
    case ProfileSection => "Profile "
    case SinkSection => "Sink "
    case SourceSection => "Source "
    case LoopbackSection => "Loopback "
  }

  predicate Named(section: string, k: Kind) {
    Prefix(k) <= section
  }

  datatype Section = Section(kind: Kind, name: string)

  /** The order in which the port-name callback tries the prefixes. */
  function Classify(section: string): Option<Section> {
    if Named(section, ProfileSection) then Some(Section(ProfileSection, section[8..]))
    else if Named(section, SinkSection) then Some(Section(SinkSection, section[5..]))
    else if Named(section, SourceSection) then Some(Section(SourceSection, section[7..]))
    else if Named(section, LoopbackSection) then Some(Section(LoopbackSection, section[9..]))
    else if Named(section, PortSection) then Some(Section(PortSection, section[5..]))
    else None
  }

  lemma PrefixesDiffer(section: string, k: Kind, l: Kind)
    requires Named(section, k) && Named(section, l)
    ensures k == l
  {
    assert section[0] == Prefix(l)[0] == Prefix(k)[0] && section[1] == Prefix(l)[1] == Prefix(k)[1];
  }

  /** No section has two kinds, so the order of trying does not matter, and the name is all that follows. */
  lemma SectionsAreUnambiguous(k: Kind, name: string)
    ensures Classify(Prefix(k) + name) == Some(Section(k, name))
    ensures forall l :: Named(Prefix(k) + name, l) ==> l == k
  {
    var s := Prefix(k) + name;
    assert Prefix(k) <= s && s[|Prefix(k)|..] == name;
    assert Named(s, k);
    hide Named;
    forall l | Named(s, l)
      ensures l == k
    {
      PrefixesDiffer(s, k, l);
    }
  }

  // ---------------------------------------------------------------------------
  // The configuration as a value

  datatype Profile = Profile(ports: set<string>, nSinks: nat, nSources: nat)

  /** A sink or a source. */
  datatype UseCase = UseCase(id: nat, ports: set<string>, profiles: set<string>)

  type Profiles = map<string, Profile>
  type UseCases = map<string, UseCase>

  datatype Config = Config(ports: set<string>, profiles: Profiles, sinks: UseCases, sources: UseCases)

  function FindProfile(ps: Profiles, name: string): Profiles {
    if name in ps then ps else ps[name := Profile({}, 0, 0)]
  }

  function FindUseCase(m: UseCases, name: string): UseCases {
    if name in m then m else m[name := UseCase(|m| + 1, {}, {})]
  }

  function Count(p: Profile, sink: bool): nat {
    if sink then p.nSinks else p.nSources
  }

  function Counted(p: Profile, sink: bool): Profile {
    if sink then p.(nSinks := p.nSinks + 1) else p.(nSources := p.nSources + 1)
  }

  /** The profiles that have the port and are not yet filed under the use case. */
  function NewProfiles(ps: Profiles, filed: set<string>, port: string): set<string> {
    set p | p in ps && port in ps[p].ports && p !in filed
  }

  function CountAll(ps: Profiles, added: set<string>, sink: bool): Profiles {
    map p | p in ps :: if p in added then Counted(ps[p], sink) else ps[p]
  }

  function ProfilePort(ps: Profiles, name: string, port: string): Profiles
    requires name in ps
  {
    ps[name := ps[name].(ports := ps[name].ports + {port})]
  }

  function UseCasePort(ps: Profiles, m: UseCases, name: string, port: string, sink: bool): (Profiles, UseCases)
    requires name in m
  {
    var u := m[name];
    var added := NewProfiles(ps, u.profiles, port);
    (CountAll(ps, added, sink), m[name := UseCase(u.id, u.ports + {port}, u.profiles + added)])
  }

  /** Ports are filed one by one until one is unknown. */
  function ProfilePorts(known: set<string>, ps: Profiles, name: string, items: seq<string>): (Profiles, int)
    requires name in ps
    decreases |items|
  {
    if items == [] then (ps, 0)
    else if items[0] !in known then (ps, -1)
    else ProfilePorts(known, ProfilePort(ps, name, items[0]), name, items[1..])
  }

  function UseCasePorts(known: set<string>, ps: Profiles, m: UseCases, name: string, items: seq<string>, sink: bool):
    (Profiles, UseCases, int)
    requires name in m
    decreases |items|
  {
    if items == [] then (ps, m, 0)
    else if items[0] !in known then (ps, m, -1)
    else
      var (qs, n) := UseCasePort(ps, m, name, items[0], sink);
      UseCasePorts(known, qs, n, name, items[1..], sink)
  }

  /** `items` is None when the line has no port names. */
  datatype Line =
    | PortNames(section: string, items: Option<seq<string>>)
    | Other(section: string, tries: set<Kind>)

  function Touch(c: Config, s: Section): Config {
    match s.kind
    case PortSection => c.(ports := c.ports + {s.name})
    case ProfileSection => c.(profiles := FindProfile(c.profiles, s.name))
    case SinkSection => c.(sinks := FindUseCase(c.sinks, s.name))
    case SourceSection => c.(sources := FindUseCase(c.sources, s.name))
    case LoopbackSection => c
  }

  predicate Created(c: Config, s: Section) {
    && (s.kind == ProfileSection ==> s.name in c.profiles)
    && (s.kind == SinkSection ==> s.name in c.sinks)
    && (s.kind == SourceSection ==> s.name in c.sources)
  }

  function FilePorts(c: Config, s: Section, items: seq<string>): Config
    requires Created(c, s)
  {
    match s.kind
    case ProfileSection => c.(profiles := ProfilePorts(c.ports, c.profiles, s.name, items).0)
    case SinkSection =>
      var (ps, m, _) := UseCasePorts(c.ports, c.profiles, c.sinks, s.name, items, true);
      c.(profiles := ps, sinks := m)
    case SourceSection =>
      var (ps, m, _) := UseCasePorts(c.ports, c.profiles, c.sources, s.name, items, false);
      c.(profiles := ps, sources := m)
    case _ => c
  }

  /** The port-name callback does not know port sections; the others try some of the kinds. */
  function ParseSection(c: Config, line: Line, s: Section): Config {
    match line
    case PortNames(_, items) =>
      if s.kind == PortSection then c
      else if items.None? then Touch(c, s)
      else FilePorts(Touch(c, s), s, items.value)
    case Other(_, tries) => if s.kind in tries then Touch(c, s) else c
  }

  function Parse(c: Config, line: Line): Config {
    var s := Classify(line.section);
    if s.None? then c else ParseSection(c, line, s.value)
  }

  function ParseAll(c: Config, lines: seq<Line>): Config
    decreases |lines|
  {
    if lines == [] then c else ParseAll(Parse(c, lines[0]), lines[1..])
  }

  predicate Empty(c: Config) {
    c.ports == {} && c.profiles == map[] && c.sinks == map[] && c.sources == map[]
  }

  // ---------------------------------------------------------------------------
  // What every prefix of lines keeps

  function Users(m: UseCases, p: string): set<string> {
    set u | u in m && p in m[u].profiles
  }

  predicate Share(a: set<string>, b: set<string>) {
    a * b != {}
  }

  /** A profile's counter is the number of use cases it is filed under. */
  ghost predicate Counts(ps: Profiles, m: UseCases, sink: bool) {
    forall p :: p in ps ==> Count(ps[p], sink) == |Users(m, p)|
  }

  /** Only profiles that share a port are filed. */
  ghost predicate Within(ps: Profiles, m: UseCases) {
    forall u, p :: u in m && p in m[u].profiles ==> p in ps && Share(ps[p].ports, m[u].ports)
  }

  /** All profiles that share a port are filed. */
  ghost predicate Complete(ps: Profiles, m: UseCases) {
    forall u, p :: u in m && p in ps && Share(ps[p].ports, m[u].ports) ==> p in m[u].profiles
  }

  /** Identifiers are distinct and are exactly 1 to the number of use cases. */
  ghost predicate Numbered(m: UseCases) {
    && (forall u :: u in m ==> 1 <= m[u].id <= |m|)
    && (forall u, v :: u in m && v in m && m[u].id == m[v].id ==> u == v)
    && (forall i :: 1 <= i <= |m| ==> HasId(m, i))
  }

  ghost predicate HasId(m: UseCases, i: nat) {
    exists u :: u in m && m[u].id == i
  }

  ghost predicate Side(ps: Profiles, m: UseCases, sink: bool) {
    Counts(ps, m, sink) && Within(ps, m) && Numbered(m)
  }

  ghost predicate Inv(c: Config) {
    Side(c.profiles, c.sinks, true) && Side(c.profiles, c.sources, false)
  }

  lemma NothingShared(s: set<string>)
    ensures !Share({}, s) && !Share(s, {})
  {
  }

  lemma ShareGrows(a: set<string>, b: set<string>, c: set<string>, d: set<string>)
    requires Share(a, b) && a <= c && b <= d
    ensures Share(c, d)
  {
    var q :| q in a * b;
    assert q in c * d;
  }

  // A new profile

  lemma NewProfileCounts(ps: Profiles, m: UseCases, sink: bool, name: string)
    requires Counts(ps, m, sink) && Within(ps, m) && name !in ps
    ensures Counts(FindProfile(ps, name), m, sink)
  {
    assert Users(m, name) == {};
    hide Within, Users;
  }

  lemma NewProfileWithin(ps: Profiles, m: UseCases, name: string)
    requires Within(ps, m) && name !in ps
    ensures Within(FindProfile(ps, name), m)
    ensures Complete(ps, m) ==> Complete(FindProfile(ps, name), m)
  {
    forall u | u in m
      ensures !Share({}, m[u].ports)
    {
      NothingShared(m[u].ports);
    }
    hide Share;
  }

  lemma NewProfileKeeps(ps: Profiles, m: UseCases, sink: bool, name: string)
    requires Side(ps, m, sink)
    ensures Side(FindProfile(ps, name), m, sink)
    ensures Complete(ps, m) ==> Complete(FindProfile(ps, name), m)
  {
    if name !in ps {
      NewProfileCounts(ps, m, sink, name);
      NewProfileWithin(ps, m, name);
    }
    hide Numbered, Counts, Within, Complete;
  }

  // A new use case

  lemma NumberedGrows(m: UseCases, name: string)
    requires Numbered(m)
    ensures Numbered(FindUseCase(m, name))
  {
    if name !in m {
      var n := FindUseCase(m, name);
      assert n[name].id == |n|;
      forall i | 1 <= i <= |n|
        ensures HasId(n, i)
      {
        if i <= |m| {
          assert HasId(m, i);
          var u :| u in m && m[u].id == i;
          assert n[u].id == i;
        } else {
          assert n[name].id == i;
        }
      }
    }
  }

  lemma NewUseCaseCounts(ps: Profiles, m: UseCases, sink: bool, name: string)
    requires Counts(ps, m, sink)
    ensures Counts(ps, FindUseCase(m, name), sink)
  {
    var n := FindUseCase(m, name);
    forall p
      ensures Users(n, p) == Users(m, p)
    {
    }
    hide Users, FindUseCase;
  }

  lemma NewUseCaseWithin(ps: Profiles, m: UseCases, name: string)
    requires Within(ps, m) && name !in m
    ensures Within(ps, FindUseCase(m, name))
  {
    hide Share;
  }

  lemma NewUseCaseComplete(ps: Profiles, m: UseCases, name: string)
    requires Complete(ps, m) && name !in m
    ensures Complete(ps, FindUseCase(m, name))
  {
    forall p | p in ps
      ensures !Share(ps[p].ports, {})
    {
      NothingShared(ps[p].ports);
    }
    hide Share;
  }

  lemma NewUseCaseKeeps(ps: Profiles, m: UseCases, sink: bool, name: string)
    requires Side(ps, m, sink)
    ensures Side(ps, FindUseCase(m, name), sink)
    ensures Complete(ps, m) ==> Complete(ps, FindUseCase(m, name))
  {
    NumberedGrows(m, name);
    NewUseCaseCounts(ps, m, sink, name);
    if name !in m {
      NewUseCaseWithin(ps, m, name);
      if Complete(ps, m) {
        NewUseCaseComplete(ps, m, name);
      }
    }
    hide Numbered, Counts, Within, Complete;
  }

  // A port filed under a profile

  lemma ProfilePortKeeps(ps: Profiles, m: UseCases, sink: bool, name: string, port: string)
    requires Side(ps, m, sink) && name in ps
    ensures Side(ProfilePort(ps, name, port), m, sink)
  {
    var qs := ProfilePort(ps, name, port);
    assert Counts(qs, m, sink) by {
      hide Users;
    }
    hide Counts, Numbered;
    forall u, p | u in m && p in m[u].profiles
      ensures Share(qs[p].ports, m[u].ports)
    {
      ShareGrows(ps[p].ports, m[u].ports, qs[p].ports, m[u].ports);
    }
  }

  // A port filed under a use case

  lemma UseCasePortUsers(ps: Profiles, m: UseCases, name: string, port: string, sink: bool, p: string)
    requires name in m
    ensures var n := UseCasePort(ps, m, name, port, sink).1;
      Users(n, p) == if p in NewProfiles(ps, m[name].profiles, port) then Users(m, p) + {name} else Users(m, p)
    ensures p in NewProfiles(ps, m[name].profiles, port) ==> name !in Users(m, p)
  {
  }

  lemma UseCasePortCounts(ps: Profiles, m: UseCases, name: string, port: string, sink: bool)
    requires Counts(ps, m, sink) && name in m
    ensures var (qs, n) := UseCasePort(ps, m, name, port, sink); Counts(qs, n, sink)
  {
    var (qs, n) := UseCasePort(ps, m, name, port, sink);
    forall p | p in qs
      ensures Count(qs[p], sink) == |Users(n, p)|
    {
      UseCasePortUsers(ps, m, name, port, sink, p);
      hide Users, NewProfiles;
    }
  }

  /** The other side's counters, and every profile's ports, are as they were. */
  lemma UseCasePortElsewhere(ps: Profiles, m: UseCases, name: string, port: string, sink: bool, other: UseCases)
    requires name in m && Side(ps, other, !sink)
    ensures var qs := UseCasePort(ps, m, name, port, sink).0;
      qs.Keys == ps.Keys && (forall p :: p in ps ==> qs[p].ports == ps[p].ports) && Side(qs, other, !sink)
  {
    hide Users, NewProfiles, Share, Numbered;
  }

  lemma UseCasePortWithin(ps: Profiles, m: UseCases, name: string, port: string, sink: bool)
    requires Within(ps, m) && name in m
    ensures var (qs, n) := UseCasePort(ps, m, name, port, sink);
      Within(qs, n) && (Complete(ps, m) ==> Complete(qs, n))
  {
    var (qs, n) := UseCasePort(ps, m, name, port, sink);
    forall p | p in ps
      ensures Share(ps[p].ports, m[name].ports + {port}) <==> Share(ps[p].ports, m[name].ports) || port in ps[p].ports
    {
      ShareOneMore(ps[p].ports, m[name].ports, port);
    }
    hide Share;
  }

  lemma ShareOneMore(a: set<string>, b: set<string>, port: string)
    ensures Share(a, b + {port}) <==> Share(a, b) || port in a
  {
    assert a * (b + {port}) == a * b + a * {port};
    if port in a {
      assert port in a * {port};
    } else {
      assert a * {port} == {};
    }
  }

  lemma UseCasePortNumbered(ps: Profiles, m: UseCases, name: string, port: string, sink: bool)
    requires Numbered(m) && name in m
    ensures Numbered(UseCasePort(ps, m, name, port, sink).1)
  {
    var n := UseCasePort(ps, m, name, port, sink).1;
    assert n.Keys == m.Keys && |n| == |m.Keys|;
    assert forall u :: u in m ==> n[u].id == m[u].id;
    forall i | 1 <= i <= |n|
      ensures HasId(n, i)
    {
      assert HasId(m, i);
      var u :| u in m && m[u].id == i;
      assert n[u].id == i;
    }
  }

  // ---------------------------------------------------------------------------
  // Port lists and lines

  lemma UseCasePortKeeps(ps: Profiles, m: UseCases, name: string, port: string, sink: bool, other: UseCases)
    requires name in m && Side(ps, m, sink) && Side(ps, other, !sink)
    ensures var (qs, n) := UseCasePort(ps, m, name, port, sink);
      && Side(qs, n, sink) && Side(qs, other, !sink) && name in n
      && (Complete(ps, m) ==> Complete(qs, n)) && (Complete(ps, other) ==> Complete(qs, other))
  {
    UseCasePortCounts(ps, m, name, port, sink);
    UseCasePortWithin(ps, m, name, port, sink);
    UseCasePortNumbered(ps, m, name, port, sink);
    UseCasePortElsewhere(ps, m, name, port, sink, other);
    var (qs, n) := UseCasePort(ps, m, name, port, sink);
    assert name in n;
    hide Users, NewProfiles, Share, Numbered, Counts, Within, UseCasePort, CountAll;
  }

  lemma {:induction false} UseCasePortsKeep(known: set<string>, ps: Profiles, m: UseCases, name: string,
                                            items: seq<string>, sink: bool, other: UseCases)
    requires name in m && Side(ps, m, sink) && Side(ps, other, !sink)
    ensures var (qs, n, _) := UseCasePorts(known, ps, m, name, items, sink);
      && Side(qs, n, sink) && Side(qs, other, !sink)
      && (Complete(ps, m) ==> Complete(qs, n)) && (Complete(ps, other) ==> Complete(qs, other))
    decreases |items|
  {
    hide Side, UseCasePort, Complete;
    if items != [] && items[0] in known {
      UseCasePortKeeps(ps, m, name, items[0], sink, other);
      var (qs, n) := UseCasePort(ps, m, name, items[0], sink);
      UseCasePortsKeep(known, qs, n, name, items[1..], sink, other);
    }
  }

  lemma {:induction false} ProfilePortsKeep(known: set<string>, ps: Profiles, name: string, items: seq<string>,
                                            sinks: UseCases, sources: UseCases)
    requires name in ps && Side(ps, sinks, true) && Side(ps, sources, false)
    ensures var qs := ProfilePorts(known, ps, name, items).0; Side(qs, sinks, true) && Side(qs, sources, false)
    decreases |items|
  {
    hide Side;
    if items != [] && items[0] in known {
      ProfilePortKeeps(ps, sinks, true, name, items[0]);
      ProfilePortKeeps(ps, sources, false, name, items[0]);
      ProfilePortsKeep(known, ProfilePort(ps, name, items[0]), name, items[1..], sinks, sources);
    }
  }

  ghost predicate AllComplete(c: Config) {
    Complete(c.profiles, c.sinks) && Complete(c.profiles, c.sources)
  }

  lemma TouchKeeps(c: Config, s: Section)
    requires Inv(c)
    ensures Inv(Touch(c, s)) && (AllComplete(c) ==> AllComplete(Touch(c, s)))
  {
    hide Side, Complete, FindProfile, FindUseCase;
    match s.kind
    case ProfileSection =>
      NewProfileKeeps(c.profiles, c.sinks, true, s.name);
      NewProfileKeeps(c.profiles, c.sources, false, s.name);
    case SinkSection => NewUseCaseKeeps(c.profiles, c.sinks, true, s.name);
    case SourceSection => NewUseCaseKeeps(c.profiles, c.sources, false, s.name);
    case _ =>
  }

  lemma FilePortsKeeps(c: Config, s: Section, items: seq<string>)
    requires Inv(c)
    requires Created(c, s)
    ensures Inv(FilePorts(c, s, items))
    ensures AllComplete(c) && s.kind != ProfileSection ==> AllComplete(FilePorts(c, s, items))
  {
    hide Side, Complete, ProfilePorts, UseCasePorts;
    match s.kind
    case ProfileSection => ProfilePortsKeep(c.ports, c.profiles, s.name, items, c.sinks, c.sources);
    case SinkSection => UseCasePortsKeep(c.ports, c.profiles, c.sinks, s.name, items, true, c.sources);
    case SourceSection => UseCasePortsKeep(c.ports, c.profiles, c.sources, s.name, items, false, c.sinks);
    case _ =>
  }

  predicate ListsProfilePorts(line: Line) {
    line.PortNames? && Classify(line.section).Some? && Classify(line.section).value.kind == ProfileSection
  }

  lemma TouchCreates(c: Config, s: Section)
    ensures Created(Touch(c, s), s)
  {
  }

  lemma SectionKeeps(c: Config, line: Line, s: Section)
    requires Inv(c)
    ensures Inv(ParseSection(c, line, s))
    ensures AllComplete(c) && (line.PortNames? ==> s.kind != ProfileSection) ==> AllComplete(ParseSection(c, line, s))
  {
    TouchCreates(c, s);
    hide Inv, AllComplete, FilePorts, Touch, Created;
    TouchKeeps(c, s);
    if line.PortNames? {
      if line.items.Some? {
        FilePortsKeeps(Touch(c, s), s, line.items.value);
      }
    }
  }

  lemma LineKeeps(c: Config, line: Line)
    requires Inv(c)
    ensures Inv(Parse(c, line))
    ensures AllComplete(c) && !ListsProfilePorts(line) ==> AllComplete(Parse(c, line))
  {
    hide Inv, AllComplete, Classify, ParseSection;
    if Classify(line.section).Some? {
      SectionKeeps(c, line, Classify(line.section).value);
    }
  }

  lemma {:induction false} LinesKeep(c: Config, lines: seq<Line>)
    requires Inv(c)
    ensures Inv(ParseAll(c, lines))
    ensures AllComplete(c) && (forall l :: l in lines ==> !ListsProfilePorts(l)) ==> AllComplete(ParseAll(c, lines))
    decreases |lines|
  {
    hide Inv, AllComplete, Parse, ListsProfilePorts;
    if lines != [] {
      LineKeeps(c, lines[0]);
      LinesKeep(Parse(c, lines[0]), lines[1..]);
    }
  }

  lemma EmptyInv(c: Config)
    requires Empty(c)
    ensures Inv(c)
  {
  }

  /**
   After any lines, failing ones included: each profile's counters are the numbers of sinks and of sources
   it is filed under, profiles are filed only where they share a port, and sinks and sources are each
   numbered from 1 without gap or repetition.
  */
  lemma IndexAgrees(init: Config, lines: seq<Line>)
    requires Empty(init)
    ensures var c := ParseAll(init, lines);
      && (forall p :: p in c.profiles ==>
            c.profiles[p].nSinks == |Users(c.sinks, p)| && c.profiles[p].nSources == |Users(c.sources, p)|)
      && Within(c.profiles, c.sinks) && Within(c.profiles, c.sources)
      && Numbered(c.sinks) && Numbered(c.sources)
  {
    EmptyInv(init);
    LinesKeep(init, lines);
    var c := ParseAll(init, lines);
    hide ParseAll, Users, Within, Numbered;
    forall p | p in c.profiles
      ensures c.profiles[p].nSinks == |Users(c.sinks, p)| && c.profiles[p].nSources == |Users(c.sources, p)|
    {
      assert Count(c.profiles[p], true) == |Users(c.sinks, p)|;
      assert Count(c.profiles[p], false) == |Users(c.sources, p)|;
    }
  }

  lemma ParseSplits(c: Config, first: seq<Line>, rest: seq<Line>)
    ensures ParseAll(c, first + rest) == ParseAll(ParseAll(c, first), rest)
    decreases |first|
  {
    if first == [] {
      assert first + rest == rest;
    } else {
      assert (first + rest)[1..] == first[1..] + rest;
      ParseSplits(Parse(c, first[0]), first[1..], rest);
    }
  }

  predicate ListsUseCasePorts(line: Line) {
    line.PortNames? && Classify(line.section).Some? && Classify(line.section).value.kind in {SinkSection, SourceSection}
  }

  /** With no port filed under any use case yet, nothing is shared. */
  ghost predicate NoUseCasePorts(m: UseCases) {
    forall u :: u in m ==> m[u].ports == {}
  }

  lemma {:induction false} NoPortsYet(c: Config, lines: seq<Line>)
    requires NoUseCasePorts(c.sinks) && NoUseCasePorts(c.sources)
    requires forall l :: l in lines ==> !ListsUseCasePorts(l)
    ensures NoUseCasePorts(ParseAll(c, lines).sinks) && NoUseCasePorts(ParseAll(c, lines).sources)
    decreases |lines|
  {
    if lines != [] {
      assert !ListsUseCasePorts(lines[0]);
      assert NoUseCasePorts(Parse(c, lines[0]).sinks) && NoUseCasePorts(Parse(c, lines[0]).sources);
      hide NoUseCasePorts, Parse, ListsUseCasePorts;
      NoPortsYet(Parse(c, lines[0]), lines[1..]);
    }
  }

  /** When the profiles' port lists come first, a profile is filed exactly where it shares a port. */
  lemma ProfilesFirstIsExact(init: Config, first: seq<Line>, rest: seq<Line>)
    requires Empty(init)
    requires forall l :: l in first ==> !ListsUseCasePorts(l)
    requires forall l :: l in rest ==> !ListsProfilePorts(l)
    ensures var c := ParseAll(init, first + rest);
      && (forall u, p :: u in c.sinks && p in c.profiles ==>
            (p in c.sinks[u].profiles <==> Share(c.profiles[p].ports, c.sinks[u].ports)))
      && (forall u, p :: u in c.sources && p in c.profiles ==>
            (p in c.sources[u].profiles <==> Share(c.profiles[p].ports, c.sources[u].ports)))
  {
    EmptyInv(init);
    ParseSplits(init, first, rest);
    var mid := ParseAll(init, first);
    LinesKeep(init, first);
    NoPortsYet(init, first);
    assert AllComplete(mid) by {
      forall s: set<string>
        ensures !Share(s, {})
      {
        NothingShared(s);
      }
      hide Share, ParseAll;
    }
    LinesKeep(mid, rest);
    hide ParseAll, Share, Numbered, Counts;
  }

  /**
   A profile's port listed later is not filed under the use cases that already have it: right after
   such a line, everything that shares a port is filed exactly if the line files no port that a use
   case without the profile has.
  */
  lemma LateProfilePortIsMissedExactlyIf(ps: Profiles, m: UseCases, name: string, port: string)
    requires Within(ps, m) && Complete(ps, m) && name in ps
    ensures Complete(ProfilePort(ps, name, port), m) <==>
            forall u :: u in m && port in m[u].ports ==> name in m[u].profiles
  {
    var qs := ProfilePort(ps, name, port);
    forall u | u in m
      ensures Share(qs[name].ports, m[u].ports) <==> Share(ps[name].ports, m[u].ports) || port in m[u].ports
    {
      assert qs[name].ports * m[u].ports == m[u].ports * qs[name].ports;
      assert ps[name].ports * m[u].ports == m[u].ports * ps[name].ports;
      ShareOneMore(m[u].ports, ps[name].ports, port);
    }
    hide Share;
  }

  /** The ports listed before the first unknown one. */
  function KnownPorts(known: set<string>, items: seq<string>): set<string>
    decreases |items|
  {
    if items == [] || items[0] !in known then {} else {items[0]} + KnownPorts(known, items[1..])
  }

  /** A list files exactly those of its ports that come before the first unknown one. */
  lemma {:induction false} ListedProfilePortsAreFiled(known: set<string>, ps: Profiles, name: string,
                                                      items: seq<string>)
    requires name in ps
    ensures var (qs, rc) := ProfilePorts(known, ps, name, items);
      && name in qs && qs[name].ports == ps[name].ports + KnownPorts(known, items)
      && rc == if forall item :: item in items ==> item in known then 0 else -1
    decreases |items|
  {
    if items != [] && items[0] in known {
      ListedProfilePortsAreFiled(known, ProfilePort(ps, name, items[0]), name, items[1..]);
      assert forall item :: item in items <==> item == items[0] || item in items[1..];
    }
  }

  lemma {:induction false} ListedUseCasePortsAreFiled(known: set<string>, ps: Profiles, m: UseCases, name: string,
                                                     items: seq<string>, sink: bool)
    requires name in m
    ensures var (_, n, rc) := UseCasePorts(known, ps, m, name, items, sink);
      && name in n && n[name].ports == m[name].ports + KnownPorts(known, items) && n[name].id == m[name].id
      && rc == if forall item :: item in items ==> item in known then 0 else -1
    decreases |items|
  {
    hide NewProfiles, CountAll;
    if items != [] && items[0] in known {
      var (qs, n) := UseCasePort(ps, m, name, items[0], sink);
      ListedUseCasePortsAreFiled(known, qs, n, name, items[1..], sink);
      assert forall item :: item in items <==> item == items[0] || item in items[1..];
    }
  }

  // ---------------------------------------------------------------------------
  // Exactly what is filed, for any lines in any order

  function UseCasesOf(c: Config, sink: bool): UseCases {
    if sink then c.sinks else c.sources
  }

  predicate Filed(c: Config, sink: bool, u: string, p: string) {
    u in UseCasesOf(c, sink) && p in UseCasesOf(c, sink)[u].profiles
  }

  /** The line lists, for this sink or source, a known port that the profile already has. */
  predicate Meets(c: Config, line: Line, sink: bool, u: string, p: string) {
    && line.PortNames? && line.items.Some?
    && Classify(line.section) == Some(Section(if sink then SinkSection else SourceSection, u))
    && p in c.profiles && Share(c.profiles[p].ports, KnownPorts(c.ports, line.items.value))
  }

  predicate EverMeets(c: Config, lines: seq<Line>, sink: bool, u: string, p: string)
    decreases |lines|
  {
    lines != [] && (Meets(c, lines[0], sink, u, p) || EverMeets(Parse(c, lines[0]), lines[1..], sink, u, p))
  }

  /** One port files, under its use case, the profiles that have it, and touches nothing else of the index. */
  lemma UseCasePortFiles(ps: Profiles, m: UseCases, name: string, port: string, sink: bool, p: string)
    requires name in m
    ensures var (qs, n) := UseCasePort(ps, m, name, port, sink);
      && qs.Keys == ps.Keys && (p in ps ==> qs[p].ports == ps[p].ports)
      && n.Keys == m.Keys && (forall u :: u in m && u != name ==> n[u] == m[u])
      && (p in n[name].profiles <==> p in m[name].profiles || (p in ps && port in ps[p].ports))
  {
  }

  lemma {:induction false} UseCasePortsFile(known: set<string>, ps: Profiles, m: UseCases, name: string,
                                            items: seq<string>, sink: bool, p: string)
    requires name in m
    ensures var (qs, n, _) := UseCasePorts(known, ps, m, name, items, sink);
      && qs.Keys == ps.Keys && (p in ps ==> qs[p].ports == ps[p].ports)
      && n.Keys == m.Keys && (forall u :: u in m && u != name ==> n[u] == m[u])
      && (p in n[name].profiles <==>
            p in m[name].profiles || (p in ps && Share(ps[p].ports, KnownPorts(known, items))))
    decreases |items|
  {
    hide UseCasePort, Share;
    var meets := if p in ps then ps[p].ports else {};
    NothingShared(meets);
    if items != [] && items[0] in known {
      UseCasePortFiles(ps, m, name, items[0], sink, p);
      var (qs, n) := UseCasePort(ps, m, name, items[0], sink);
      UseCasePortsFile(known, qs, n, name, items[1..], sink, p);
      ShareOneMore(meets, KnownPorts(known, items[1..]), items[0]);
      assert KnownPorts(known, items) == KnownPorts(known, items[1..]) + {items[0]};
    }
  }

  lemma TouchFilesNothing(c: Config, s: Section, sink: bool, u: string, p: string)
    ensures Filed(Touch(c, s), sink, u, p) <==> Filed(c, sink, u, p)
    ensures s.kind != PortSection ==> Touch(c, s).ports == c.ports
    ensures s.kind != ProfileSection ==> Touch(c, s).profiles == c.profiles
  {
  }

  lemma FilePortsFiles(c: Config, s: Section, items: seq<string>, sink: bool, u: string, p: string)
    requires Created(c, s)
    ensures Filed(FilePorts(c, s, items), sink, u, p) <==>
      Filed(c, sink, u, p) ||
      (s == Section(if sink then SinkSection else SourceSection, u)
       && p in c.profiles && Share(c.profiles[p].ports, KnownPorts(c.ports, items)))
  {
    hide UseCasePorts, ProfilePorts, Share, KnownPorts;
    match s.kind
    case SinkSection => UseCasePortsFile(c.ports, c.profiles, c.sinks, s.name, items, true, p);
    case SourceSection => UseCasePortsFile(c.ports, c.profiles, c.sources, s.name, items, false, p);
    case _ =>
  }

  lemma LineFiles(c: Config, line: Line, sink: bool, u: string, p: string)
    ensures Filed(Parse(c, line), sink, u, p) <==> Filed(c, sink, u, p) || Meets(c, line, sink, u, p)
  {
    hide Classify, Touch, Filed, FilePorts, Share, KnownPorts, Created;
    if Classify(line.section).Some? {
      var s := Classify(line.section).value;
      TouchFilesNothing(c, s, sink, u, p);
      TouchCreates(c, s);
      if line.PortNames? && line.items.Some? {
        FilePortsFiles(Touch(c, s), s, line.items.value, sink, u, p);
      }
    }
  }

  lemma {:induction false} LinesFile(c: Config, lines: seq<Line>, sink: bool, u: string, p: string)
    ensures Filed(ParseAll(c, lines), sink, u, p) <==> Filed(c, sink, u, p) || EverMeets(c, lines, sink, u, p)
    decreases |lines|
  {
    hide Filed, Meets, Parse;
    if lines != [] {
      LineFiles(c, lines[0], sink, u, p);
      LinesFile(Parse(c, lines[0]), lines[1..], sink, u, p);
    }
  }

  /**
   After any lines in any order: a profile is filed under a sink or source if and only if some line listed for
   the sink or source a known port that the profile already had. So a port that reaches the profile only later
   does not count.
  */
  lemma FiledExactlyIfMet(init: Config, lines: seq<Line>, sink: bool, u: string, p: string)
    requires Empty(init)
    ensures Filed(ParseAll(init, lines), sink, u, p) <==> EverMeets(init, lines, sink, u, p)
  {
    LinesFile(init, lines, sink, u, p);
    hide EverMeets, ParseAll;
  }

  // ---------------------------------------------------------------------------
  // Which entries exist, what they list, and which lists succeed

  predicate Known(c: Config, s: Section) {
    match s.kind
    case PortSection => s.name in c.ports
    case ProfileSection => s.name in c.profiles
    case SinkSection => s.name in c.sinks
    case SourceSection => s.name in c.sources
    case LoopbackSection => false
  }

  /** The line is about the entry, and its callback is one that looks for entries of that kind. */
  predicate Declares(line: Line, s: Section) {
    line.section == Prefix(s.kind) + s.name &&
    match line
    case PortNames(_, _) => s.kind != PortSection
    case Other(_, tries) => s.kind in tries
  }

  ghost predicate Declared(lines: seq<Line>, s: Section) {
    exists i :: 0 <= i < |lines| && Declares(lines[i], s)
  }

  lemma NamedSplits(section: string, k: Kind)
    requires Named(section, k)
    ensures section == Prefix(k) + section[|Prefix(k)|..]
  {
    hide Prefix;
  }

  /** What is classified is the prefix and the name. */
  lemma ClassifiedSplits(section: string)
    requires Classify(section).Some?
    ensures var s := Classify(section).value; section == Prefix(s.kind) + s.name
  {
    var s := Classify(section).value;
    assert Named(section, s.kind) && s.name == section[|Prefix(s.kind)|..];
    NamedSplits(section, s.kind);
    hide Classify, Prefix;
  }

  lemma ClassifiedExactlyIf(section: string, s: Section)
    ensures Classify(section) == Some(s) <==> section == Prefix(s.kind) + s.name
  {
    hide Classify, Prefix;
    SectionsAreUnambiguous(s.kind, s.name);
    if Classify(section).Some? {
      ClassifiedSplits(section);
    }
  }

  lemma {:induction false} ProfilePortsKeepEntries(known: set<string>, ps: Profiles, name: string, items: seq<string>)
    requires name in ps
    ensures var qs := ProfilePorts(known, ps, name, items).0;
      qs.Keys == ps.Keys && forall p :: p in ps && p != name ==> qs[p] == ps[p]
    decreases |items|
  {
    if items != [] && items[0] in known {
      ProfilePortsKeepEntries(known, ProfilePort(ps, name, items[0]), name, items[1..]);
    }
  }

  /** The ports filed under a profile, sink or source. */
  function PortsOf(c: Config, s: Section): set<string> {
    match s.kind
    case ProfileSection => if s.name in c.profiles then c.profiles[s.name].ports else {}
    case SinkSection => if s.name in c.sinks then c.sinks[s.name].ports else {}
    case SourceSection => if s.name in c.sources then c.sources[s.name].ports else {}
    case _ => {}
  }

  predicate HasPorts(k: Kind) {
    k == ProfileSection || k == SinkSection || k == SourceSection
  }

  lemma FilePortsEffect(c: Config, s: Section, items: seq<string>, other: Section)
    requires Created(c, s)
    ensures Known(FilePorts(c, s, items), other) <==> Known(c, other)
    ensures PortsOf(FilePorts(c, s, items), other) ==
      PortsOf(c, other) + if other == s && HasPorts(s.kind) then KnownPorts(c.ports, items) else {}
    ensures FilePorts(c, s, items).ports == c.ports
  {
    hide UseCasePorts, ProfilePorts, KnownPorts;
    match s.kind
    case ProfileSection =>
      ProfilePortsKeepEntries(c.ports, c.profiles, s.name, items);
      ListedProfilePortsAreFiled(c.ports, c.profiles, s.name, items);
    case SinkSection =>
      UseCasePortsFile(c.ports, c.profiles, c.sinks, s.name, items, true, other.name);
      ListedUseCasePortsAreFiled(c.ports, c.profiles, c.sinks, s.name, items, true);
    case SourceSection =>
      UseCasePortsFile(c.ports, c.profiles, c.sources, s.name, items, false, other.name);
      ListedUseCasePortsAreFiled(c.ports, c.profiles, c.sources, s.name, items, false);
    case _ =>
  }

  lemma TouchEffect(c: Config, s: Section, other: Section)
    ensures Known(Touch(c, s), other) <==> Known(c, other) || (other == s && s.kind != LoopbackSection)
    ensures PortsOf(Touch(c, s), other) == PortsOf(c, other)
  {
  }

  /** The ports that the line files under the entry, when those in `known` have been declared. */
  function Lists(line: Line, s: Section, known: set<string>): set<string> {
    if line.PortNames? && line.items.Some? && line.section == Prefix(s.kind) + s.name && HasPorts(s.kind)
    then KnownPorts(known, line.items.value) else {}
  }

  lemma LineEffect(c: Config, line: Line, s: Section)
    requires s.kind != LoopbackSection
    ensures Known(Parse(c, line), s) <==> Known(c, s) || Declares(line, s)
    ensures PortsOf(Parse(c, line), s) == PortsOf(c, s) + Lists(line, s, c.ports)
  {
    ClassifiedExactlyIf(line.section, s);
    hide Classify, Prefix, Touch, FilePorts, KnownPorts, Created, PortsOf, Known;
    var found := Classify(line.section);
    if found.Some? {
      TouchEffect(c, found.value, s);
      TouchCreates(c, found.value);
      TouchKeepsPorts(c, found.value);
      if line.PortNames? && line.items.Some? {
        FilePortsEffect(Touch(c, found.value), found.value, line.items.value, s);
      }
    }
  }

  /**
   After any lines: an entry exists if and only if some line is about it whose callback looks for entries of its
   kind. So the callback for port names declares profiles, sinks and sources, and never a port.
  */
  lemma {:induction false} KnownExactlyIfDeclared(c: Config, lines: seq<Line>, s: Section)
    requires s.kind != LoopbackSection
    ensures Known(ParseAll(c, lines), s) <==> Known(c, s) || Declared(lines, s)
    decreases |lines|
  {
    hide Known, Parse, Declares;
    if lines != [] {
      LineEffect(c, lines[0], s);
      KnownExactlyIfDeclared(Parse(c, lines[0]), lines[1..], s);
      if Declares(lines[0], s) {
        assert Declared(lines, s);
      }
      if i :| 0 <= i < |lines[1..]| && Declares(lines[1..][i], s) {
        assert Declares(lines[i + 1], s);
      }
      if i :| 0 < i < |lines| && Declares(lines[i], s) {
        assert Declares(lines[1..][i - 1], s);
      }
    }
  }

  /** The ports declared by the lines. */
  ghost function DeclaredPorts(lines: seq<Line>): set<string> {
    set i | 0 <= i < |lines| && lines[i].Other? && PortSection in lines[i].tries && Named(lines[i].section, PortSection)
      :: lines[i].section[|Prefix(PortSection)|..]
  }

  lemma DeclaredPortsAre(lines: seq<Line>, port: string)
    ensures port in DeclaredPorts(lines) <==> Declared(lines, Section(PortSection, port))
  {
    var s := Section(PortSection, port);
    if port in DeclaredPorts(lines) {
      var i :| 0 <= i < |lines| && lines[i].Other? && PortSection in lines[i].tries
               && Named(lines[i].section, PortSection) && lines[i].section[|Prefix(PortSection)|..] == port;
      assert Declares(lines[i], s);
    }
    if i :| 0 <= i < |lines| && Declares(lines[i], s) {
      assert lines[i].section[|Prefix(PortSection)|..] == port;
    }
  }

  lemma KnownPortsAreDeclared(init: Config, lines: seq<Line>)
    requires Empty(init)
    ensures ParseAll(init, lines).ports == DeclaredPorts(lines)
  {
    hide ParseAll, DeclaredPorts, Declared;
    forall port
      ensures port in ParseAll(init, lines).ports <==> port in DeclaredPorts(lines)
    {
      DeclaredPortsAre(lines, port);
      KnownExactlyIfDeclared(init, lines, Section(PortSection, port));
    }
  }

  lemma ParseLast(c: Config, lines: seq<Line>)
    requires lines != []
    ensures ParseAll(c, lines) == Parse(ParseAll(c, lines[..|lines| - 1]), lines[|lines| - 1])
  {
    var n := |lines| - 1;
    assert lines == lines[..n] + [lines[n]];
    ParseSplits(c, lines[..n], [lines[n]]);
    assert [lines[n]][1..] == [];
    hide Parse;
  }

  /** What the lines list for an entry: of each list, the ports before the first not declared by an earlier line. */
  ghost function Listed(lines: seq<Line>, s: Section): set<string> {
    if lines == [] then {}
    else
      var n := |lines| - 1;
      Listed(lines[..n], s) + Lists(lines[n], s, DeclaredPorts(lines[..n]))
  }

  /** After any lines, the ports filed under a profile, sink or source are those that the lines listed for it. */
  lemma {:induction false} PortsAreThoseListed(init: Config, lines: seq<Line>, s: Section)
    requires Empty(init) && s.kind != LoopbackSection
    ensures PortsOf(ParseAll(init, lines), s) == Listed(lines, s)
    decreases |lines|
  {
    hide Parse, Lists, DeclaredPorts;
    if lines != [] {
      var n := |lines| - 1;
      ParseLast(init, lines);
      PortsAreThoseListed(init, lines[..n], s);
      KnownPortsAreDeclared(init, lines[..n]);
      LineEffect(ParseAll(init, lines[..n]), lines[n], s);
      hide ParseAll;
    }
  }

  /** Line `i` lists, for the sink or source, a port that an earlier line listed for the profile. */
  ghost predicate ListsSharedPort(lines: seq<Line>, i: nat, sink: bool, u: string, p: string)
    requires i < |lines|
  {
    Share(Listed(lines[..i], Section(ProfileSection, p)),
          Lists(lines[i], Section(if sink then SinkSection else SourceSection, u), DeclaredPorts(lines[..i])))
  }

  lemma MeetsExactlyIf(init: Config, lines: seq<Line>, i: nat, sink: bool, u: string, p: string)
    requires Empty(init) && i < |lines|
    ensures Meets(ParseAll(init, lines[..i]), lines[i], sink, u, p) <==> ListsSharedPort(lines, i, sink, u, p)
  {
    var c, use := ParseAll(init, lines[..i]), Section(if sink then SinkSection else SourceSection, u);
    ClassifiedExactlyIf(lines[i].section, use);
    PortsAreThoseListed(init, lines[..i], Section(ProfileSection, p));
    KnownPortsAreDeclared(init, lines[..i]);
    NothingShared(PortsOf(c, Section(ProfileSection, p)));
    NothingShared(Lists(lines[i], use, c.ports));
    hide ParseAll, Classify, Share, DeclaredPorts, Listed, KnownPorts, Prefix;
  }

  ghost predicate EverListsSharedPort(lines: seq<Line>, sink: bool, u: string, p: string) {
    exists i: nat :: i < |lines| && ListsSharedPort(lines, i, sink, u, p)
  }

  lemma SameBefore(lines: seq<Line>, n: nat, i: nat, sink: bool, u: string, p: string)
    requires i < n <= |lines|
    ensures ListsSharedPort(lines[..n], i, sink, u, p) <==> ListsSharedPort(lines, i, sink, u, p)
  {
    assert lines[..n][..i] == lines[..i];
    hide Listed, Lists, Share;
  }

  lemma LastOrBefore(lines: seq<Line>, n: nat, sink: bool, u: string, p: string)
    requires |lines| == n + 1
    ensures EverListsSharedPort(lines, sink, u, p) <==>
      EverListsSharedPort(lines[..n], sink, u, p) || ListsSharedPort(lines, n, sink, u, p)
  {
    hide ListsSharedPort;
    forall i: nat | i < n
      ensures ListsSharedPort(lines[..n], i, sink, u, p) <==> ListsSharedPort(lines, i, sink, u, p)
    {
      SameBefore(lines, n, i, sink, u, p);
    }
  }

  /**
   After any lines in any order, told from the lines alone: a profile is filed under a sink or source if and only
   if some line lists for the sink or source a port that an earlier line listed for the profile.
  */
  lemma {:induction false} FiledExactlyIfListedLater(init: Config, lines: seq<Line>, sink: bool, u: string, p: string)
    requires Empty(init)
    ensures Filed(ParseAll(init, lines), sink, u, p) <==> EverListsSharedPort(lines, sink, u, p)
    decreases |lines|
  {
    if lines == [] {
      assert !Filed(init, sink, u, p);
    } else {
      hide *;
      var n := |lines| - 1;
      ParseLast(init, lines);
      LineFiles(ParseAll(init, lines[..n]), lines[n], sink, u, p);
      MeetsExactlyIf(init, lines, n, sink, u, p);
      FiledExactlyIfListedLater(init, lines[..n], sink, u, p);
      LastOrBefore(lines, n, sink, u, p);
    }
  }

  /** The port-name callback's code for a list met with the entries of `c`. */
  function ListCode(c: Config, section: string, items: Option<seq<string>>): int {
    var found := Classify(section);
    if found.Some? && found.value.kind != PortSection && items.Some?
       && forall item :: item in items.value ==> item in c.ports
    then 0 else -1
  }

  /**
   A list succeeds, after any lines, if and only if it is there, it is for a profile, sink, source or loopback,
   and each of its ports was declared by one of the lines; otherwise it returns -1.
  */
  lemma ListSucceedsExactlyIfDeclared(init: Config, lines: seq<Line>, section: string, items: Option<seq<string>>)
    requires Empty(init)
    ensures ListCode(ParseAll(init, lines), section, items) in {0, -1}
    ensures ListCode(ParseAll(init, lines), section, items) == 0 <==>
      && (exists s: Section :: s.kind != PortSection && section == Prefix(s.kind) + s.name)
      && items.Some? && forall item :: item in items.value ==> Declared(lines, Section(PortSection, item))
  {
    KnownPortsAreDeclared(init, lines);
    if Classify(section).Some? {
      ClassifiedExactlyIf(section, Classify(section).value);
    }
    if s: Section :| s.kind != PortSection && section == Prefix(s.kind) + s.name {
      ClassifiedExactlyIf(section, s);
    }
    hide Classify, ParseAll, DeclaredPorts, Declared, Prefix;
    if items.Some? {
      forall item | item in items.value
        ensures item in ParseAll(init, lines).ports <==> Declared(lines, Section(PortSection, item))
      {
        DeclaredPortsAre(lines, item);
      }
    }
  }

  // ---------------------------------------------------------------------------
  // The configuration as the parser keeps it

  lemma CountNone(ps: Profiles, sink: bool)
    ensures CountAll(ps, {}, sink) == ps
  {
  }

  lemma CountOneMore(ps: Profiles, added: set<string>, sink: bool, p: string)
    requires p in ps && p !in added
    ensures p in CountAll(ps, added, sink) && CountAll(ps, added, sink)[p] == ps[p]
    ensures CountAll(ps, added, sink)[p := Counted(ps[p], sink)] == CountAll(ps, added + {p}, sink)
  {
    hide Counted;
  }

  /** The new profiles among those already walked. */
  function Walked(ps: Profiles, filed: set<string>, port: string, todo: set<string>): set<string> {
    NewProfiles(ps, filed, port) - todo
  }

  lemma WalkedEnds(ps: Profiles, filed: set<string>, port: string)
    ensures Walked(ps, filed, port, ps.Keys) == {}
    ensures Walked(ps, filed, port, {}) == NewProfiles(ps, filed, port)
  {
  }

  lemma WalkedOneMore(ps: Profiles, filed: set<string>, port: string, todo: set<string>, p: string)
    requires p in todo && p in ps
    ensures p !in Walked(ps, filed, port, todo)
    ensures Walked(ps, filed, port, todo - {p}) ==
      Walked(ps, filed, port, todo) + if port in ps[p].ports && p !in filed then {p} else {}
  {
  }

  /** One port filed under the section's entry. */
  function FilePort(c: Config, s: Section, port: string): Config
    requires Created(c, s)
  {
    match s.kind
    case ProfileSection => c.(profiles := ProfilePort(c.profiles, s.name, port))
    case SinkSection =>
      var (ps, m) := UseCasePort(c.profiles, c.sinks, s.name, port, true);
      c.(profiles := ps, sinks := m)
    case SourceSection =>
      var (ps, m) := UseCasePort(c.profiles, c.sources, s.name, port, false);
      c.(profiles := ps, sources := m)
    case _ => c
  }

  lemma FilePortsStep(c: Config, s: Section, items: seq<string>)
    requires Created(c, s)
    ensures items == [] || items[0] !in c.ports ==> FilePorts(c, s, items) == c
    ensures items != [] ==> Created(FilePort(c, s, items[0]), s) && FilePort(c, s, items[0]).ports == c.ports
    ensures items != [] && items[0] in c.ports ==>
      FilePorts(c, s, items) == FilePorts(FilePort(c, s, items[0]), s, items[1..])
  {
    hide NewProfiles, CountAll;
  }

  lemma TouchKeepsPorts(c: Config, s: Section)
    ensures s.kind != PortSection ==> Touch(c, s).ports == c.ports
  {
  }

  class ConfigData {
    var ports: set<string>
    var profiles: Profiles
    var sinks: UseCases
    var sources: UseCases

    function View(): Config
      reads this
    {
      Config(ports, profiles, sinks, sources)
    }

    constructor ()
      ensures Empty(View())
    {
      ports, profiles, sinks, sources := {}, map[], map[], map[];
    }

    /** Find the section's entry or create it. */
    method GetEntry(s: Section)
      modifies this
      ensures View() == Touch(old(View()), s)
    {
      match s.kind
      case PortSection => ports := ports + {s.name};
      case ProfileSection =>
        if s.name !in profiles {
          profiles := profiles[s.name := Profile({}, 0, 0)];
        }
      case SinkSection =>
        if s.name !in sinks {
          sinks := sinks[s.name := UseCase(|sinks| + 1, {}, {})];
        }
      case SourceSection =>
        if s.name !in sources {
          sources := sources[s.name := UseCase(|sources| + 1, {}, {})];
        }
      case LoopbackSection =>
    }

    /** Walk the profiles, in whatever order the hashmap gives them. */
    method FileProfiles(filed: set<string>, port: string, sink: bool) returns (now: set<string>)
      modifies this`profiles
      ensures now == filed + NewProfiles(old(profiles), filed, port)
      ensures profiles == CountAll(old(profiles), NewProfiles(old(profiles), filed, port), sink)
    {
      now := filed;
      var todo := profiles.Keys;
      ghost var ps := profiles;
      WalkedEnds(ps, filed, port);
      CountNone(ps, sink);
      hide *;
      while todo != {}
        invariant todo <= ps.Keys
        invariant now == filed + Walked(ps, filed, port, todo)
        invariant profiles == CountAll(ps, Walked(ps, filed, port, todo), sink)
        decreases |todo|
      {
        var p :| p in todo;
        WalkedOneMore(ps, filed, port, todo, p);
        CountOneMore(ps, Walked(ps, filed, port, todo), sink, p);
        if port in profiles[p].ports && p !in now {
          now := now + {p};
          profiles := profiles[p := Counted(profiles[p], sink)];
        }
        todo := todo - {p};
      }
    }

    method FileUseCasePort(name: string, port: string, sink: bool)
      requires name in if sink then sinks else sources
      modifies this`profiles, this`sinks, this`sources
      ensures (profiles, if sink then sinks else sources) ==
              UseCasePort(old(profiles), old(if sink then sinks else sources), name, port, sink)
      ensures (if sink then sources else sinks) == old(if sink then sources else sinks)
    {
      var u := if sink then sinks[name] else sources[name];
      var filed := FileProfiles(u.profiles, port, sink);
      if sink {
        sinks := sinks[name := UseCase(u.id, u.ports + {port}, filed)];
      } else {
        sources := sources[name := UseCase(u.id, u.ports + {port}, filed)];
      }
    }

    /** The loop over a section's port names, up to the first unknown one. */
    method FileListedPorts(s: Section, items: seq<string>) returns (rc: int)
      requires Created(View(), s)
      modifies this
      ensures View() == FilePorts(old(View()), s, items) && ports == old(ports)
      ensures rc == if forall item :: item in items ==> item in ports then 0 else -1
    {
      hide Created, FilePorts, FilePort;
      ghost var start := View();
      var i := 0;
      while i < |items|
        invariant 0 <= i <= |items|
        invariant Created(View(), s) && ports == start.ports
        invariant FilePorts(View(), s, items[i..]) == FilePorts(start, s, items)
        invariant forall k :: 0 <= k < i ==> items[k] in ports
      {
        FilePortsStep(View(), s, items[i..]);
        var port := items[i];
        if port !in ports {
          return -1;
        }
        assert items[i..][1..] == items[i + 1..];
        FileOnePort(s, port);
        i := i + 1;
      }
      FilePortsStep(View(), s, items[i..]);
      rc := 0;
    }

    method ParsePortNames(section: string, items: Option<seq<string>>) returns (rc: int)
      modifies this
      ensures View() == Parse(old(View()), PortNames(section, items))
      ensures rc == ListCode(old(View()), section, items)
    {
      hide Classify, FilePorts, Touch, Created;
      var found := Classify(section);
      if found.None? || found.value.kind == PortSection {
        return -1;
      }
      TouchKeepsPorts(View(), found.value);
      TouchCreates(View(), found.value);
      GetEntry(found.value);
      if items.None? {
        return -1;
      }
      rc := FileListedPorts(found.value, items.value);
    }

    method FileOnePort(s: Section, port: string)
      requires Created(View(), s)
      modifies this
      ensures View() == FilePort(old(View()), s, port)
    {
      hide UseCasePort;
      match s.kind
      case ProfileSection =>
        profiles := profiles[s.name := profiles[s.name].(ports := profiles[s.name].ports + {port})];
      case SinkSection => FileUseCasePort(s.name, port, true);
      case SourceSection => FileUseCasePort(s.name, port, false);
      case _ =>
    }
  }
}
