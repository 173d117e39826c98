/** Router configurations and their validation
    (`virt/emulator/dynamips/{config,platform,validate}.go`). */
module RouterConfigs {
  import opened Options
  import opened Leases

  datatype Card = Card(slot: nat, name: string)

  datatype Remote = Missing | IPv4(port: nat) | OtherFamily(port: nat)

  datatype Interface = Interface(id: string, slot: nat, port: nat, localPort: nat, remote: Remote)

  datatype C7200 = C7200(npe: string, midplane: string)

  datatype Platform = Platform(name: string, chassis: string, hasMac: bool, c7200: Option<C7200>)

  datatype Console = Console(kind: string, auxiliary: string, port: nat, enhanced: bool)

  /** `provisioned` says that startup or private configurations were supplied. */
  datatype Config = Config(
    id: string, name: string, image: string, instanceId: int, memory: int, cpus: int, stateDirectory: string,
    platform: Platform, console: Console, provisioned: bool, cards: seq<Card>, interfaces: seq<Interface>,
    lease: Option<Lease>)

  // ------------------------------------------------------------ what is valid

  const PLATFORMS := {"c1700", "c2600", "c2691", "c3600", "c3725", "c3745", "c7200"}
  const MAX_MEMORY := 0xFFFF_FFFF

  /** `filepath.IsAbs`. */
  predicate IsAbsolute(path: string) {
    "/" <= path
  }

  ghost predicate NamesValid(cfg: Config) {
    && (|cfg.stateDirectory| > 0 ==> cfg.stateDirectory[0] == '/' && '\0' !in cfg.stateDirectory)
    && cfg.id != "" && cfg.name != "" && cfg.image != ""
    && '/' !in cfg.name && '\\' !in cfg.name && '\0' !in cfg.name && '\0' !in cfg.id && '\0' !in cfg.image
  }

  ghost predicate PlatformValid(p: Platform) {
    && p.name in PLATFORMS && p.chassis == ""
    && (p.name != "c7200" ==> !p.hasMac && p.c7200.None?)
    && (p.c7200.Some? ==> '\0' !in p.c7200.value.npe && '\0' !in p.c7200.value.midplane)
  }

  ghost predicate ConsoleValid(c: Console) {
    && c.auxiliary in {"", "none"} && c.kind in {"", "none", "telnet"}
    && (c.kind == "none" ==> c.port == 0)
    && (c.kind == "telnet" || c.enhanced ==> c.port != 0)
  }

  ghost predicate InterfaceValid(i: Interface) {
    && i.id != "" && (forall j :: 0 <= j < |i.id| ==> i.id[j] != '\0')
    && i.localPort > 0 && exists port :: port > 0 && i.remote == IPv4(port)
  }

  ghost predicate CardsValid(cards: seq<Card>) {
    && (forall i :: 0 <= i < |cards| ==> cards[i].name != "" && '\0' !in cards[i].name)
    && (forall i, j :: 0 <= i < j < |cards| ==> cards[i].slot != cards[j].slot)
  }

  ghost predicate DistinctInterfaces(interfaces: seq<Interface>) {
    forall i, j :: 0 <= i < j < |interfaces| ==>
      && interfaces[i].id != interfaces[j].id
      && !(interfaces[i].slot == interfaces[j].slot && interfaces[i].port == interfaces[j].port)
  }

  ghost predicate InterfacesValid(interfaces: seq<Interface>) {
    && (forall i :: 0 <= i < |interfaces| ==> InterfaceValid(interfaces[i]))
    && DistinctInterfaces(interfaces)
  }

  ghost predicate ValidConfig(cfg: Config) {
    && NamesValid(cfg) && 0 <= cfg.instanceId && 0 <= cfg.memory <= MAX_MEMORY && 0 <= cfg.cpus <= 1
    && PlatformValid(cfg.platform) && ConsoleValid(cfg.console)
    && CardsValid(cfg.cards) && InterfacesValid(cfg.interfaces)
  }

  // ------------------------------------------------------------ validation

  /** `validateConfig`: straight-line checks, then two loops with seen-maps. */
  method ValidateConfig(cfg: Config) returns (ok: bool)
    ensures ok <==> ValidConfig(cfg)
  {
    if cfg.stateDirectory != "" && (!IsAbsolute(cfg.stateDirectory) || '\0' in cfg.stateDirectory) {
      return false;
    }
    if cfg.id == "" || cfg.name == "" || cfg.image == "" || '/' in cfg.name || '\\' in cfg.name || '\0' in cfg.name
       || '\0' in cfg.id + cfg.image
    {
      return false;
    }
    if cfg.instanceId < 0 || cfg.memory < 0 || cfg.memory > MAX_MEMORY {
      return false;
    }
    ok := ValidatePlatform(cfg.platform);
    if !ok || (cfg.cpus != 0 && cfg.cpus != 1) {
      return false;
    }
    ok := ValidateConsole(cfg.console);
    if !ok {
      return;
    }
    ok := ValidateCards(cfg.cards);
    if !ok {
      return;
    }
    ok := ValidateInterfaces(cfg.interfaces);
  }

  method ValidatePlatform(p: Platform) returns (ok: bool)
    ensures ok <==> PlatformValid(p)
  {
    if p.name !in PLATFORMS {
      return false;
    }
    if p.chassis != "" || (p.hasMac && p.name != "c7200") {
      return false;
    }
    if p.c7200.Some? {
      if p.name != "c7200" || '\0' in p.c7200.value.npe + p.c7200.value.midplane {
        return false;
      }
    }
    ok := true;
  }

  method ValidateConsole(c: Console) returns (ok: bool)
    ensures ok <==> ConsoleValid(c)
  {
    if c.auxiliary != "" && c.auxiliary != "none" {
      return false;
    }
    if c.kind != "" && c.kind != "none" && c.kind != "telnet" {
      return false;
    }
    if (c.kind == "none" && c.port != 0) || (c.kind == "telnet" && c.port == 0) {
      return false;
    }
    ok := !(c.enhanced && c.port == 0);
  }

  method ValidateCards(cards: seq<Card>) returns (ok: bool)
    ensures ok <==> CardsValid(cards)
  {
    var slots: set<nat> := {};
    for i := 0 to |cards|
      invariant forall s :: s in slots <==> exists j :: 0 <= j < i && cards[j].slot == s
      invariant forall j :: 0 <= j < i ==> cards[j].name != "" && '\0' !in cards[j].name
      invariant forall j, k :: 0 <= j < k < i ==> cards[j].slot != cards[k].slot
    {
      if cards[i].name == "" || '\0' in cards[i].name || cards[i].slot in slots {
        return false;
      }
      slots := slots + {cards[i].slot};
    }
    ok := true;
  }

  method ValidateInterfaces(interfaces: seq<Interface>) returns (ok: bool)
    ensures ok <==> InterfacesValid(interfaces)
  {
    var ids: set<string>, ports: set<(nat, nat)> := {}, {};
    for i := 0 to |interfaces|
      invariant forall id :: id in ids <==> exists j :: 0 <= j < i && interfaces[j].id == id
      invariant forall p :: p in ports <==> exists j :: 0 <= j < i && (interfaces[j].slot, interfaces[j].port) == p
      invariant forall j :: 0 <= j < i ==> InterfaceValid(interfaces[j])
      invariant forall j, k :: 0 <= j < k < i ==>
                  && interfaces[j].id != interfaces[k].id
                  && !(interfaces[j].slot == interfaces[k].slot && interfaces[j].port == interfaces[k].port)
    {
      var iface := interfaces[i];
      if iface.id == "" || '\0' in iface.id || iface.localPort == 0 || !iface.remote.IPv4? || iface.remote.port == 0 {
        assert !InterfaceValid(iface);
        return false;
      }
      assert InterfaceValid(iface) by {
        assert iface.remote == IPv4(iface.remote.port);
      }
      if iface.id in ids || (iface.slot, iface.port) in ports {
        return false;
      }
      ids, ports := ids + {iface.id}, ports + {(iface.slot, iface.port)};
    }
    ok := true;
  }

  // ------------------------------------------------------------ native settings

  datatype Setting =
    | Npe(name: string) | Midplane(name: string) | Mac | Ios(image: string)
    | Ram(megabytes: int) | ConsolePort(port: nat) | PushConfig

  /** The settings a configuration asks for. */
  ghost predicate Wanted(cfg: Config, s: Setting) {
    match s
    case Npe(name) => cfg.platform.c7200.Some? && |name| > 0 && name == cfg.platform.c7200.value.npe
    case Midplane(name) => cfg.platform.c7200.Some? && |name| > 0 && name == cfg.platform.c7200.value.midplane
    case Mac => cfg.platform.hasMac
    case Ios(image) => image == cfg.image
    case Ram(megabytes) => megabytes == cfg.memory != 0
    case ConsolePort(port) => port == cfg.console.port != 0
    case PushConfig => cfg.provisioned
  }

  ghost function Rank(s: Setting): nat {
    match s
    case Npe(_) => 0
    case Midplane(_) => 1
    case Mac => 2
    case Ios(_) => 3
    case Ram(_) => 4
    case ConsolePort(_) => 5
    case PushConfig => 6
  }

  /** Exactly the wanted settings, once each, in their order. */
  ghost predicate SettingsFor(cfg: Config, steps: seq<Setting>) {
    && (forall s :: s in steps <==> Wanted(cfg, s))
    && (forall i, j :: 0 <= i < j < |steps| ==> Rank(steps[i]) < Rank(steps[j]))
  }

  ghost predicate CollectedAt(cfg: Config, steps: seq<Setting>, k: nat, s: Setting) {
    s in steps <==> Wanted(cfg, s) && Rank(s) < k
  }

  /** The wanted settings of rank below `k` have been collected. */
  ghost predicate Collected(cfg: Config, steps: seq<Setting>, k: nat) {
    && (forall s :: CollectedAt(cfg, steps, k, s))
    && (forall i, j :: 0 <= i < j < |steps| ==> Rank(steps[i]) < Rank(steps[j]))
  }

  lemma NothingCollected(cfg: Config)
    ensures Collected(cfg, [], 0)
  {
    forall s ensures CollectedAt(cfg, [], 0, s) {
    }
  }

  lemma AllCollected(cfg: Config, steps: seq<Setting>)
    requires Collected(cfg, steps, 7)
    ensures SettingsFor(cfg, steps)
  {
    forall s ensures s in steps <==> Wanted(cfg, s) {
      assert CollectedAt(cfg, steps, 7, s);
    }
  }

  /** The only setting of its rank that the configuration can want. */
  ghost predicate IsChoice(cfg: Config, s: Setting) {
    match s
    case Npe(name) => cfg.platform.c7200.Some? && name == cfg.platform.c7200.value.npe
    case Midplane(name) => cfg.platform.c7200.Some? && name == cfg.platform.c7200.value.midplane
    case Mac => true
    case Ios(image) => image == cfg.image
    case Ram(megabytes) => megabytes == cfg.memory
    case ConsolePort(port) => port == cfg.console.port
    case PushConfig => true
  }

  /** One `if` of the list: the setting is appended when it is wanted. */
  method AppendIf(steps: seq<Setting>, wanted: bool, s: Setting, ghost cfg: Config, ghost k: nat)
    returns (more: seq<Setting>)
    requires Collected(cfg, steps, k) && Rank(s) == k && (wanted <==> Wanted(cfg, s)) && IsChoice(cfg, s)
    ensures more == steps + (if wanted then [s] else []) && Collected(cfg, more, k + 1)
  {
    more := if wanted then steps + [s] else steps;
    ghost var n := k + 1;
    forall x ensures CollectedAt(cfg, more, n, x) {
      assert CollectedAt(cfg, steps, k, x);
    }
    forall i | 0 <= i < |steps| ensures Rank(steps[i]) < k {
      assert CollectedAt(cfg, steps, k, steps[i]);
    }
  }

  /** The list of steps that `configureRouter` builds. */
  method CollectSettings(cfg: Config) returns (steps: seq<Setting>)
    ensures SettingsFor(cfg, steps)
  {
    steps := CollectPlatform(cfg);
    steps := AppendIf(steps, true, Ios(cfg.image), cfg, 3);
    steps := AppendIf(steps, cfg.memory != 0, Ram(cfg.memory), cfg, 4);
    steps := CollectRest(cfg, steps);
    AllCollected(cfg, steps);
  }

  method CollectPlatform(cfg: Config) returns (steps: seq<Setting>)
    ensures Collected(cfg, steps, 3)
  {
    steps := CollectSpecific(cfg);
    steps := AppendIf(steps, cfg.platform.hasMac, Mac, cfg, 2);
  }

  method CollectSpecific(cfg: Config) returns (steps: seq<Setting>)
    ensures Collected(cfg, steps, 2)
  {
    NothingCollected(cfg);
    if cfg.platform.c7200.None? {
      NothingSpecific(cfg);
      return [];
    }
    var specific := cfg.platform.c7200.value;
    steps := AppendIf([], |specific.npe| > 0, Npe(specific.npe), cfg, 0);
    steps := AppendIf(steps, |specific.midplane| > 0, Midplane(specific.midplane), cfg, 1);
  }

  lemma NothingSpecific(cfg: Config)
    requires cfg.platform.c7200.None?
    ensures Collected(cfg, [], 2)
  {
    forall s ensures CollectedAt(cfg, [], 2, s) {
    }
  }

  method CollectRest(cfg: Config, before: seq<Setting>) returns (steps: seq<Setting>)
    requires Collected(cfg, before, 5)
    ensures Collected(cfg, steps, 7)
  {
    steps := AppendIf(before, cfg.console.port != 0, ConsolePort(cfg.console.port), cfg, 5);
    steps := AppendIf(steps, cfg.provisioned, PushConfig, cfg, 6);
  }
}
