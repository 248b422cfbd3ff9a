/** Containers as the manager sees them, and the lookup by ID, swarm ID or name. */
module Containers {

  import opened Options

  /** One host-port binding. `unspecified` is what net.ParseIP(hostIP).IsUnspecified() answers. */
  datatype PortBinding = PortBinding(hostIP: string, unspecified: bool, hostPort: string)

  type PortMap = map<string, seq<PortBinding>>

  datatype Operator = Eq | NotEq

  /** A parsed affinity, constraint or whitelist expression. `accepts` is the regular
      expression its value stands for; one that does not compile accepts nothing. */
  datatype Expr = Expr(key: string, op: Operator, value: string, accepts: string -> bool, soft: bool)

  /** What parsing a label's list of expressions gives. */
  datatype Parsed = Malformed | Exprs(exprs: seq<Expr>)

  datatype Config = Config(
    swarmID: string,
    labels: map<string, string>,
    memory: int,
    cpuShares: int,
    networkMode: string,
    exposedPorts: set<string>,
    portBindings: PortMap,
    volumesFrom: seq<string>,
    links: seq<string>,
    affinities: Parsed,
    constraints: Parsed,
    whitelists: Parsed)

  /** The inspected part of a container. Empty maps stand for the nil ones of a container in flight. */
  datatype Info = Info(networkMode: string, exposedPorts: set<string>, portBindings: PortMap, networkPorts: PortMap)

  const NO_INFO := Info("", {}, map[], map[])

  datatype Container = Container(
    id: string,
    names: seq<string>,
    labels: map<string, string>,
    config: Config,
    info: Info,
    engineID: string,
    engineName: string)

  const SHORT_LEN := 12

  /** The part of `s` before the first `sep`, or all of it. */
  function Before(s: string, sep: char): string {
    if s == [] || s[0] == sep then [] else [s[0]] + Before(s[1..], sep)
  }

  function TruncateID(id: string): string {
    var head := Before(id, ':');
    var rest := if |head| < |id| then (BeforeLength(id, ':'); id[|head| + 1..]) else id;
    if |rest| > SHORT_LEN then rest[..SHORT_LEN] else rest
  }

  lemma BeforeLength(s: string, sep: char)
    ensures |Before(s, sep)| <= |s|
  {
  }

  /** The five ways a container can answer to a search key, in the order they are tried. */
  datatype Match = ById | BySwarmID | ByName | ByIdPrefix | BySwarmIDPrefix

  predicate Matches(m: Match, c: Container, key: string) {
    match m
    case ById => c.id == key || TruncateID(c.id) == key
    case BySwarmID => c.config.swarmID == key || TruncateID(c.config.swarmID) == key
    case ByName =>
      exists i | 0 <= i < |c.names| ::
        || c.names[i] == key || c.names[i] == "/" + key
        || c.engineID + c.names[i] == key || c.engineName + c.names[i] == key
    case ByIdPrefix => key <= c.id
    case BySwarmIDPrefix => key <= c.config.swarmID
  }

  function Select(cs: seq<Container>, m: Match, key: string): (r: seq<Container>)
    ensures forall c :: c in r <==> c in cs && Matches(m, c, key)
  {
    if cs == [] then []
    else (if Matches(m, cs[0], key) then [cs[0]] else []) + Select(cs[1..], m, key)
  }

  /** Containers.Get: exact IDs win over names, names over prefixes; an ambiguous name or prefix finds nothing. */
  function Get(cs: seq<Container>, key: string): Option<Container> {
    if key == "" then None
    else if Select(cs, ById, key) != [] then Some(Select(cs, ById, key)[0])
    else if Select(cs, BySwarmID, key) != [] then Some(Select(cs, BySwarmID, key)[0])
    else
      var named := Select(cs, ByName, key);
      if |named| == 1 then Some(named[0])
      else if |named| > 1 then None
      else
        var prefixed := Select(cs, ByIdPrefix, key) + Select(cs, BySwarmIDPrefix, key);
        if |prefixed| == 1 then Some(prefixed[0]) else None
  }

  ghost predicate Answers(cs: seq<Container>, m: Match, key: string) {
    exists c :: c in cs && Matches(m, c, key)
  }

  lemma {:induction false} SelectNone(cs: seq<Container>, m: Match, key: string)
    ensures Select(cs, m, key) == [] <==> !Answers(cs, m, key)
  {
    if cs != [] {
      SelectNone(cs[1..], m, key);
      assert cs == [cs[0]] + cs[1..];
    }
  }

  /** Two containers of the list answer. */
  ghost predicate Ambiguous(cs: seq<Container>, m: Match, key: string) {
    exists i, j :: 0 <= i < j < |cs| && Matches(m, cs[i], key) && Matches(m, cs[j], key)
  }

  lemma AmbiguousCons(c: Container, rest: seq<Container>, m: Match, key: string)
    ensures Ambiguous([c] + rest, m, key) <==>
            Ambiguous(rest, m, key) || (Matches(m, c, key) && Answers(rest, m, key))
  {
    var cs := [c] + rest;
    if i, j :| 0 <= i < j < |cs| && Matches(m, cs[i], key) && Matches(m, cs[j], key) {
      assert cs[j] == rest[j - 1] && (i > 0 ==> cs[i] == rest[i - 1]);
    }
    if i, j :| 0 <= i < j < |rest| && Matches(m, rest[i], key) && Matches(m, rest[j], key) {
      assert cs[i + 1] == rest[i] && cs[j + 1] == rest[j];
    }
    if d :| Matches(m, c, key) && d in rest && Matches(m, d, key) {
      var j :| 0 <= j < |rest| && rest[j] == d;
      assert cs[0] == c && cs[j + 1] == d;
    }
  }

  lemma {:induction false} SelectMany(cs: seq<Container>, m: Match, key: string)
    ensures |Select(cs, m, key)| > 1 <==> Ambiguous(cs, m, key)
  {
    if cs != [] {
      var rest := cs[1..];
      SelectMany(rest, m, key);
      SelectNone(rest, m, key);
      AmbiguousCons(cs[0], rest, m, key);
      assert cs == [cs[0]] + rest;
    }
  }

  ghost predicate Alone(cs: seq<Container>, m: Match, key: string) {
    Answers(cs, m, key) && !Ambiguous(cs, m, key)
  }

  /** Exact or short IDs win over swarm IDs, these over names, and names over prefixes. A name or prefix that two
      containers have finds nothing. */
  lemma GetDecides(cs: seq<Container>, key: string)
    requires key != ""
    ensures var c := Get(cs, key);
      && (c.Some? ==> c.value in cs)
      && (Answers(cs, ById, key) ==> c.Some? && Matches(ById, c.value, key))
      && (!Answers(cs, ById, key) && Answers(cs, BySwarmID, key) ==> c.Some? && Matches(BySwarmID, c.value, key))
      && (!Answers(cs, ById, key) && !Answers(cs, BySwarmID, key) ==>
            && (Alone(cs, ByName, key) ==> c.Some? && Matches(ByName, c.value, key))
            && (Ambiguous(cs, ByName, key) ==> c == None)
            && (!Answers(cs, ByName, key) ==>
                  && (c.Some? ==> Matches(ByIdPrefix, c.value, key) || Matches(BySwarmIDPrefix, c.value, key))
                  && (Ambiguous(cs, ByIdPrefix, key) || Ambiguous(cs, BySwarmIDPrefix, key) ==> c == None)
                  && (Answers(cs, ByIdPrefix, key) && Answers(cs, BySwarmIDPrefix, key) ==> c == None)
                  && (Alone(cs, ByIdPrefix, key) && !Answers(cs, BySwarmIDPrefix, key) ==> c.Some?)
                  && (Alone(cs, BySwarmIDPrefix, key) && !Answers(cs, ByIdPrefix, key) ==> c.Some?)))
  {
    forall m: Match
      ensures (Select(cs, m, key) == [] <==> !Answers(cs, m, key))
              && (|Select(cs, m, key)| > 1 <==> Ambiguous(cs, m, key))
    {
      SelectNone(cs, m, key);
      SelectMany(cs, m, key);
    }
    forall m: Match | Select(cs, m, key) != []
      ensures Select(cs, m, key)[0] in cs && Matches(m, Select(cs, m, key)[0], key)
    {
      assert Select(cs, m, key)[0] in Select(cs, m, key);
    }
  }

  lemma {:induction false} BeforeIs(a: string, sep: char, b: string)
    requires sep !in a
    ensures Before(a + [sep] + b, sep) == a && Before(a, sep) == a
  {
    if a == [] {
      assert a + [sep] + b == [sep] + b;
    } else {
      BeforeIs(a[1..], sep, b);
      assert (a + [sep] + b)[1..] == a[1..] + [sep] + b;
    }
  }

  /** A short ID is the first twelve characters of the ID, or of what is behind its colon. */
  lemma ShortIdIs(digits: string, algorithm: string)
    requires ':' !in digits && ':' !in algorithm
    ensures TruncateID(digits) == if |digits| > 12 then digits[..12] else digits
    ensures TruncateID(algorithm + ":" + digits) == TruncateID(digits)
  {
    BeforeIs(digits, ':', "");
    BeforeIs(algorithm, ':', digits);
    assert algorithm + ":" + digits == algorithm + [':'] + digits;
    assert (algorithm + ":" + digits)[|algorithm| + 1..] == digits;
  }

  /** A container answers to its ID and its swarm ID in full and to the first twelve characters of each, and, when
      nothing better is found, to everything that they begin with. */
  lemma IdAnswers(c: Container, key: string)
    requires ':' !in c.id && |c.id| > 12 && ':' !in c.config.swarmID && |c.config.swarmID| > 12
    ensures Matches(ById, c, key) <==> key == c.id || key == c.id[..12]
    ensures Matches(BySwarmID, c, key) <==> key == c.config.swarmID || key == c.config.swarmID[..12]
    ensures Matches(ByIdPrefix, c, key) <==> exists i | 0 <= i <= |c.id| :: key == c.id[..i]
    ensures Matches(BySwarmIDPrefix, c, key) <==>
            exists i | 0 <= i <= |c.config.swarmID| :: key == c.config.swarmID[..i]
  {
    ShortIdIs(c.id, "");
    ShortIdIs(c.config.swarmID, "");
    if key <= c.id {
      assert key == c.id[..|key|];
    }
    if key <= c.config.swarmID {
      assert key == c.config.swarmID[..|key|];
    }
  }

  /** A container with one name `/n` answers to `n`, to `/n`, and to both behind the ID or the name of its engine. */
  lemma NameAnswers(c: Container, n: string, key: string)
    requires c.names == ["/" + n]
    ensures Matches(ByName, c, key) <==>
            key == n || key == "/" + n || key == c.engineID + "/" + n || key == c.engineName + "/" + n
  {
    assert c.names[0] == "/" + n;
    assert ("/" + n)[1..] == n && ("/" + key)[1..] == key;
    assert c.engineID + ("/" + n) == c.engineID + "/" + n && c.engineName + ("/" + n) == c.engineName + "/" + n;
  }

  ghost predicate HasSwarmID(cs: seq<Container>, key: string) {
    exists c :: c in cs && c.config.swarmID == key
  }

  /** A container that carries the swarm ID lets the look-up find something, whatever else there is. */
  lemma CarrierFound(cs: seq<Container>, key: string)
    requires key != "" && HasSwarmID(cs, key)
    ensures Get(cs, key).Some?
  {
    var c :| c in cs && c.config.swarmID == key;
    assert c in Select(cs, BySwarmID, key);
  }

  /** `c` could be taken for the container with swarm ID `key` although it is another one. */
  ghost predicate Mistakable(c: Container, key: string) {
    c.config.swarmID != key && exists m :: Matches(m, c, key)
  }

  /** Looking a swarm ID up finds something exactly when some container carries it,
      provided that no other container can be mistaken for it. */
  lemma GetBySwarmID(cs: seq<Container>, key: string)
    requires key != ""
    requires forall c :: c in cs ==> !Mistakable(c, key)
    ensures Get(cs, key).Some? <==> HasSwarmID(cs, key)
  {
    if HasSwarmID(cs, key) {
      var c :| c in cs && c.config.swarmID == key;
      assert c in Select(cs, BySwarmID, key);
    } else {
      forall m: Match ensures Select(cs, m, key) == [] {
        if Select(cs, m, key) != [] {
          var c := Select(cs, m, key)[0];
          assert c in Select(cs, m, key);
          assert Mistakable(c, key);
        }
      }
    }
  }
}
