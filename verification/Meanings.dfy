/** What the filters ask of a node, in terms of what the node and its containers are. */
module Meanings {
  import opened Options
  import opened Containers
  import opened Nodes
  import opened Filters

  // ---- Affinities and constraints ----

  /** An affinity with that key looks at this string: the ID or the first name of a container that has a name, an
      image, or the value of a container's label. */
  ghost predicate Offers(n: Node, key: string, what: string) {
    if key == "container" then exists c :: c in n.containers && c.names != [] && (what == c.id || CalledFirst(c, what))
    else if key == "image" then what in n.images
    else exists c :: c in n.containers && what == if key in c.labels then c.labels[key] else ""
  }

  /** The first name of the container, without the slash that it may begin with. */
  predicate CalledFirst(c: Container, name: string)
    requires c.names != []
  {
    c.names[0] == "/" + name || (c.names[0] == name && !("/" <= name))
  }

  lemma TrimSlashIs(name: string, c: Container)
    requires c.names != []
    ensures TrimSlash(c.names[0]) == name <==> CalledFirst(c, name)
  {
    if c.names[0] == "/" + name {
      assert c.names[0][1..] == name;
    } else if "/" <= c.names[0] {
      assert c.names[0] == "/" + c.names[0][1..];
    }
  }

  lemma {:induction false} IdsAndNamesAre(cs: seq<Container>, what: string)
    ensures what in IdsAndNames(cs) <==> exists c :: c in cs && c.names != [] && (what == c.id || CalledFirst(c, what))
  {
    if cs != [] {
      IdsAndNamesAre(cs[1..], what);
      assert cs == [cs[0]] + cs[1..];
      if cs[0].names != [] {
        TrimSlashIs(what, cs[0]);
      }
    }
  }

  lemma SatisfiedIff(e: Expr, whats: seq<string>)
    ensures e.op.Eq? ==> (Satisfied(e, whats) <==> exists what :: what in whats && e.accepts(what))
    ensures e.op.NotEq? ==> (Satisfied(e, whats) <==> forall what | what in whats :: !e.accepts(what))
  {
    if i :| 0 <= i < |whats| && e.accepts(whats[i]) {
      assert whats[i] in whats;
    }
  }

  function LabelsOf(cs: seq<Container>, key: string): seq<string> {
    seq(|cs|, i requires 0 <= i < |cs| => LabelOr(cs[i].labels, key))
  }

  lemma LabelsAre(cs: seq<Container>, key: string, what: string)
    ensures what in LabelsOf(cs, key) <==>
            exists c :: c in cs && what == if key in c.labels then c.labels[key] else ""
  {
    if c :| c in cs && what == if key in c.labels then c.labels[key] else "" {
      var i :| 0 <= i < |cs| && cs[i] == c;
      assert LabelsOf(cs, key)[i] == what;
    }
  }

  function Whats(n: Node, key: string): seq<string> {
    if key == "container" then IdsAndNames(n.containers) else if key == "image" then n.images
    else LabelsOf(n.containers, key)
  }

  lemma OffersAre(n: Node, key: string, what: string)
    ensures Offers(n, key, what) <==> what in Whats(n, key)
  {
    IdsAndNamesAre(n.containers, what);
    LabelsAre(n.containers, key, what);
  }

  lemma AffinityHoldsIff(n: Node, e: Expr)
    ensures AffinityHolds(e, n) <==> Satisfied(e, Whats(n, e.key))
  {
    assert seq(|n.containers|, i requires 0 <= i < |n.containers| => LabelOr(n.containers[i].labels, e.key))
           == LabelsOf(n.containers, e.key);
  }

  /** An affinity `==` keeps the nodes that offer something it accepts, `!=` those that offer nothing such. */
  lemma AffinityKeeps(n: Node, e: Expr)
    ensures e.op.Eq? ==> (Meets(n, BeNear(e)) <==> exists what :: Offers(n, e.key, what) && e.accepts(what))
    ensures e.op.NotEq? ==> (Meets(n, BeNear(e)) <==> forall what | Offers(n, e.key, what) :: !e.accepts(what))
  {
    AffinityHoldsIff(n, e);
    SatisfiedIff(e, Whats(n, e.key));
    forall what ensures Offers(n, e.key, what) <==> what in Whats(n, e.key) {
      OffersAre(n, e.key, what);
    }
  }

  /** So on a node without containers no `==` affinity to containers or labels is met, and every `!=` one is. */
  lemma EmptyNodeAffinity(n: Node, e: Expr)
    requires n.containers == [] && e.key != "image"
    ensures Meets(n, BeNear(e)) <==> e.op.NotEq?
  {
    AffinityKeeps(n, e);
  }

  /** A constraint looks at the ID and the name of the node, or at its label. */
  lemma ConstraintKeeps(n: Node, e: Expr)
    ensures e.key == "node" ==> (Meets(n, Obey(e)) <==> ((e.accepts(n.id) || e.accepts(n.name)) <==> e.op.Eq?))
    ensures e.key != "node" && e.key in n.labels ==>
              (Meets(n, Obey(e)) <==> (e.accepts(n.labels[e.key]) <==> e.op.Eq?))
    ensures e.key != "node" && e.key !in n.labels ==> (Meets(n, Obey(e)) <==> (e.accepts("") <==> e.op.Eq?))
  {
    var ids, value := [n.id, n.name], [LabelOr(n.labels, e.key)];
    SatisfiedIff(e, ids);
    SatisfiedIff(e, value);
    assert n.id in ids && n.name in ids && LabelOr(n.labels, e.key) in value;
  }

  // ---- Lists in strings ----

  function Joined(names: seq<string>, sep: char): string {
    if names == [] then "" else if |names| == 1 then names[0] else names[0] + [sep] + Joined(names[1..], sep)
  }

  /** Splitting gives back what was joined. */
  lemma {:induction false} SplitJoined(names: seq<string>, sep: char)
    requires names != [] && forall name | name in names :: sep !in name
    ensures Split(Joined(names, sep), sep) == names
  {
    var s := Joined(names, sep);
    assert names[0] in names;
    if |names| == 1 {
      BeforeIs(names[0], sep, "");
      assert s == names[0];
    } else {
      BeforeIs(names[0], sep, Joined(names[1..], sep));
      SplitJoined(names[1..], sep);
      assert s[|names[0]| + 1..] == Joined(names[1..], sep);
    }
  }

  /** A whitelist keeps exactly the nodes with one of its names. */
  lemma WhitelistKeeps(n: Node, e: Expr, names: seq<string>)
    requires names != [] && (forall name | name in names :: '|' !in name) && e.value == Joined(names, '|')
    ensures Meets(n, BeListed(e)) <==> n.name in names
  {
    SplitJoined(names, '|');
  }

  // ---- Dependencies ----

  /** A reference to a container, as in volumes-from and links: its name, with something behind a colon perhaps. */
  predicate RefersTo(ref: string, key: string) {
    ':' !in key && (ref == key || key + ":" <= ref)
  }

  lemma {:induction false} RefersIff(ref: string, key: string)
    ensures Before(ref, ':') == key <==> RefersTo(ref, key)
  {
    if ref != [] && ref[0] != ':' {
      if key != [] {
        RefersIff(ref[1..], key[1..]);
        assert key == [key[0]] + key[1..] && ref == [ref[0]] + ref[1..];
        assert key + ":" == [key[0]] + (key[1..] + ":");
      }
    }
  }

  /** What a container depends on. */
  lemma DependsOnIff(config: Config, key: string)
    ensures key in Dependencies(config) <==>
            || (exists i :: 0 <= i < |config.volumesFrom| && RefersTo(config.volumesFrom[i], key))
            || (exists i :: 0 <= i < |config.links| && RefersTo(config.links[i], key))
            || config.networkMode == "container:" + key
  {
    RefsIff(config.volumesFrom, key);
    RefsIff(config.links, key);
    if NET_PREFIX <= config.networkMode {
      assert config.networkMode == NET_PREFIX + config.networkMode[|NET_PREFIX|..];
    }
    assert (NET_PREFIX + key)[|NET_PREFIX|..] == key;
  }

  lemma RefsIff(refs: seq<string>, key: string)
    ensures key in Hosts(refs) <==> exists i :: 0 <= i < |refs| && RefersTo(refs[i], key)
  {
    forall i | 0 <= i < |refs| ensures Hosts(refs)[i] == key <==> RefersTo(refs[i], key) {
      RefersIff(refs[i], key);
    }
  }

  // ---- Slots ----

  function Decimal(n: nat): string {
    if n < 10 then [('0' as int + n) as char] else Decimal(n / 10) + [('0' as int + n % 10) as char]
  }

  lemma {:induction false} DigitsOfDecimal(n: nat)
    ensures Decimal(n) != [] && '0' <= Decimal(n)[0] <= '9' && Digits(Decimal(n)) == Some(n)
  {
    if n >= 10 {
      DigitsOfDecimal(n / 10);
      assert Decimal(n)[..|Decimal(n)| - 1] == Decimal(n / 10);
    }
  }

  /** Decimal numbers are read as what they are, with or without a sign. */
  lemma AtoiReads(n: nat)
    ensures Atoi(Decimal(n)) == Atoi("+" + Decimal(n)) == Some(n) && Atoi("-" + Decimal(n)) == Some(-(n as int))
  {
    DigitsOfDecimal(n);
    assert ("+" + Decimal(n))[1..] == Decimal(n) == ("-" + Decimal(n))[1..];
  }

  lemma {:induction false} DigitsLegible(s: string)
    ensures Digits(s).Some? <==> s != [] && forall i | 0 <= i < |s| :: '0' <= s[i] <= '9'
  {
    if |s| > 1 {
      DigitsLegible(s[..|s| - 1]);
    }
  }

  /** A node with a legible slot label has an open slot exactly when it holds fewer containers; a node without a label,
      or with an illegible one, always has. */
  lemma SlotsKeep(n: Node, slots: nat)
    ensures "containerslots" !in n.labels ==> Meets(n, HaveOpenSlot)
    ensures "containerslots" in n.labels ==>
      && (n.labels["containerslots"] == Decimal(slots) ==> (Meets(n, HaveOpenSlot) <==> |n.containers| < slots))
      && (n.labels["containerslots"] == "-" + Decimal(slots) ==> !Meets(n, HaveOpenSlot))
      && (n.labels["containerslots"] == "" ==> Meets(n, HaveOpenSlot))
  {
    AtoiReads(slots);
  }

  // ---- The whole chain ----

  function WithoutSoft(es: seq<Expr>): seq<Expr> {
    if es == [] then [] else WithoutSoft(es[..|es| - 1]) + if es[|es| - 1].soft then [] else [es[|es| - 1]]
  }

  lemma {:induction false} WithoutSoftIs(es: seq<Expr>)
    ensures forall e :: e in WithoutSoft(es) <==> e in es && !e.soft
  {
    if es != [] {
      WithoutSoftIs(es[..|es| - 1]);
      assert es == es[..|es| - 1] + [es[|es| - 1]];
    }
  }

  function HardPart(p: Parsed): Parsed {
    if p.Malformed? then p else Exprs(WithoutSoft(p.exprs))
  }

  function HardConfig(config: Config): Config {
    config.(affinities := HardPart(config.affinities), constraints := HardPart(config.constraints),
            whitelists := HardPart(config.whitelists))
  }

  /** The hard pass asks for exactly what both passes would ask for if the soft expressions were left out. */
  lemma HardPassIs(f: Filter, config: Config)
    ensures Demands(f, config, false) == Demands(f, HardConfig(config), true)
  {
    if Parses(f, config) && (f.Affinity? || f.Constraint? || f.Whitelist?) {
      WithoutSoftIs(ParsedFor(f, config).exprs);
    }
  }

  /** What each filter is for; in the hard pass soft expressions do not matter. */
  ghost predicate Passes(n: Node, f: Filter, config: Config, soft: bool)
    requires Parses(f, config)
  {
    match f
    case Health => n.health > 0
    case Slots => HasOpenSlot(n)
    case Port =>
      if config.networkMode == "host" then forall port | port in config.exposedPorts :: !PortAlreadyExposed(n, port)
      else forall k, x | k in config.portBindings && x in config.portBindings[k] :: !PortAlreadyInUse(n, x)
    case Dependency => forall key | key in Dependencies(config) :: Contains(n, key)
    case Affinity => forall e | e in config.affinities.exprs && (soft || !e.soft) :: AffinityHolds(e, n)
    case Constraint => forall e | e in config.constraints.exprs && (soft || !e.soft) :: ConstraintHolds(e, n)
    case Whitelist => forall e | e in config.whitelists.exprs && (soft || !e.soft) :: Whitelisted(e, n)
  }

  lemma PassesOne(n: Node, f: Filter, config: Config, soft: bool)
    requires Parses(f, config)
    ensures MeetsAll(n, Demands(f, config, soft)) <==> Passes(n, f, config, soft)
  {
    var ds := Demands(f, config, soft);
    if MeetsAll(n, ds) {
      match f {
        case Health => assert BeHealthy in ds;
        case Slots => assert HaveOpenSlot in ds;
        case Port =>
          forall port | config.networkMode == "host" && port in config.exposedPorts
            ensures !PortAlreadyExposed(n, port)
          {
            assert NotExpose(port) in ds && Meets(n, NotExpose(port));
          }
          forall k, x | config.networkMode != "host" && k in config.portBindings && x in config.portBindings[k]
            ensures !PortAlreadyInUse(n, x)
          {
            assert HaveFree(x) in BindingDemands(config.portBindings[k]);
            assert HaveFree(x) in ds && Meets(n, HaveFree(x));
          }
        case Dependency =>
          forall key | key in Dependencies(config) ensures Contains(n, key) {
            assert Hold(key) in ds && Meets(n, Hold(key));
          }
        case Affinity =>
          forall e | e in config.affinities.exprs && (soft || !e.soft) ensures AffinityHolds(e, n) {
            assert BeNear(e) in ds && Meets(n, BeNear(e));
          }
        case Constraint =>
          forall e | e in config.constraints.exprs && (soft || !e.soft) ensures ConstraintHolds(e, n) {
            assert Obey(e) in ds && Meets(n, Obey(e));
          }
        case Whitelist =>
          forall e | e in config.whitelists.exprs && (soft || !e.soft) ensures Whitelisted(e, n) {
            assert BeListed(e) in ds && Meets(n, BeListed(e));
          }
      }
    }
  }

  /** A node passes the filters exactly when it passes each of them. */
  lemma PassesIff(n: Node, fs: seq<Filter>, config: Config, soft: bool)
    requires AllParse(fs, config)
    ensures MeetsAll(n, AllDemands(fs, config, soft)) <==>
            forall f | f in fs :: Parses(f, config) && Passes(n, f, config, soft)
  {
    forall f | f in fs
      ensures Parses(f, config) && (MeetsAll(n, Demands(f, config, soft)) <==> Passes(n, f, config, soft))
    {
      PassesOne(n, f, config, soft);
    }
    if MeetsAll(n, AllDemands(fs, config, soft)) {
      forall f | f in fs ensures MeetsAll(n, Demands(f, config, soft)) {
        assert Demands(f, config, soft) <= AllDemands(fs, config, soft);
      }
    }
  }
}
