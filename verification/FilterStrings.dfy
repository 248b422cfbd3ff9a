/** Filters written as text, key==value or key!=value, as bytes of UTF-8. */
module FilterStrings {
  import opened Options

  type byte = b: int | 0 <= b < 256

  const EQUALS: byte := 61
  const BANG: byte := 33

  /** The operator a filter got; one without an operator of its own keeps that of the filter before it. */
  datatype Operator = Unset | Equal | NotEqual

  datatype Filter = Filter(key: seq<byte>, operator: Operator, pattern: seq<byte>)

  /** How one string ends: an index out of range panics. */
  datatype One = Good(filter: Filter) | Bad | Broken

  datatype Outcome = Parsed(filters: seq<Filter>) | Invalid | Panics

  // ---- UTF-8 ----

  /** How many bytes a character takes that starts with this byte. */
  function Width(b: byte): nat {
    if b < 0xC0 then 1 else if b < 0xE0 then 2 else if b < 0xF0 then 3 else 4
  }

  /** Characters of one to four bytes, all but the first of them continuation bytes. */
  predicate Utf8(s: seq<byte>) {
    s == [] ||
    (var w := Width(s[0]);
     && !(0x80 <= s[0] < 0xC0) && w <= |s|
     && (forall k | 1 <= k < w :: 0x80 <= s[k] < 0xC0)
     && Utf8(s[w..]))
  }

  /** Where the last character starts. */
  function LastStart(s: seq<byte>): (i: nat)
    requires s != []
    ensures i < |s|
  {
    if Width(s[0]) >= |s| then 0 else Width(s[0]) + LastStart(s[Width(s[0])..])
  }

  predicate Ascii(s: seq<byte>) {
    forall b | b in s :: b < 0x80
  }

  lemma {:induction false} AsciiLast(s: seq<byte>)
    requires s != [] && Ascii(s)
    ensures LastStart(s) == |s| - 1
  {
    assert s[0] in s;
    if |s| > 1 {
      assert forall b | b in s[1..] :: b in s;
      AsciiLast(s[1..]);
    }
  }

  // ---- One string ----

  /** The second character of an operator. */
  predicate OperatorAt(s: seq<byte>, i: int) {
    1 <= i < |s| && s[i] == EQUALS && (s[i - 1] == EQUALS || s[i - 1] == BANG)
  }

  function OperatorOf(s: seq<byte>, i: nat): Operator
    requires OperatorAt(s, i)
  {
    if s[i - 1] == EQUALS then Equal else NotEqual
  }

  ghost predicate Leftmost(s: seq<byte>, i: nat) {
    OperatorAt(s, i) && forall j | 0 <= j < i :: !OperatorAt(s, j)
  }

  function Find(s: seq<byte>, from: nat): (r: Option<nat>)
    requires from <= |s|
    ensures r.Some? ==> from <= r.value && OperatorAt(s, r.value) && forall j | from <= j < r.value :: !OperatorAt(s, j)
    ensures r.None? ==> forall j | from <= j :: !OperatorAt(s, j)
    decreases |s| - from
  {
    if from == |s| then None
    else if OperatorAt(s, from) then Some(from)
    else Find(s, from + 1)
  }

  function StartsWithEquals(s: seq<byte>): bool {
    s != [] && s[0] == EQUALS
  }

  /** What the parser makes of a string, given the operator of the filter before. */
  function ParseOne(s: seq<byte>, carried: Operator): One {
    if StartsWithEquals(s) then Broken
    else match Find(s, 0)
      case Some(i) => if i >= |s| - 1 then Bad else Good(Filter(s[..i - 1], OperatorOf(s, i), s[i + 1..]))
      case None =>
        if s == [] || LastStart(s) >= |s| - 1 then Bad
        else if LastStart(s) == 0 then Broken
        else Good(Filter(s[..LastStart(s) - 1], carried, s[LastStart(s) + 1..]))
  }

  function Text(o: Operator): seq<byte> {
    match o
    case Unset => []
    case Equal => [EQUALS, EQUALS]
    case NotEqual => [BANG, EQUALS]
  }

  function Show(f: Filter): seq<byte> {
    f.key + Text(f.operator) + f.pattern
  }

  ghost predicate HasOperator(s: seq<byte>) {
    exists i :: OperatorAt(s, i)
  }

  /** A string is split at its leftmost operator, and nothing of it is lost. */
  lemma SplitAtLeftmost(s: seq<byte>, carried: Operator)
    requires HasOperator(s) && ParseOne(s, carried).Good?
    ensures var f := ParseOne(s, carried).filter;
      Show(f) == s && f.pattern != [] && Leftmost(s, |f.key| + 1) && f.operator == OperatorOf(s, |f.key| + 1)
  {
    var i := Find(s, 0).value;
    assert s == s[..i - 1] + [s[i - 1], s[i]] + s[i + 1..];
  }

  /** With an operator, a string is refused exactly when nothing follows it, and panics exactly when it starts
      with an equals sign. */
  lemma RefusedIff(s: seq<byte>, carried: Operator)
    requires HasOperator(s)
    ensures ParseOne(s, carried) == Broken <==> StartsWithEquals(s)
    ensures ParseOne(s, carried) == Bad <==> !StartsWithEquals(s) && Leftmost(s, |s| - 1)
  {
    var i :| OperatorAt(s, i);
    assert Find(s, 0).Some?;
  }

  /** Without an operator, a string gets through exactly when its last character, which is not its first one, takes
      more than one byte. It then gets the operator of the filter before it. */
  lemma WithoutOperator(s: seq<byte>, carried: Operator)
    requires !HasOperator(s)
    ensures ParseOne(s, carried).Good? <==> !StartsWithEquals(s) && s != [] && 0 < LastStart(s) < |s| - 1
    ensures ParseOne(s, carried).Good? ==> ParseOne(s, carried).filter.operator == carried
    ensures Ascii(s) ==> !ParseOne(s, carried).Good?
  {
    if s != [] && Ascii(s) {
      AsciiLast(s);
    }
  }

  /** What a caller has to see to in order to get back the filter that it writes down. */
  predicate Printable(f: Filter)
    requires f.operator != Unset
  {
    && f.pattern != [] && !StartsWithEquals(f.key) && Find(f.key, 0).None?
    && (f.operator == Equal ==> f.key != [] && f.key[|f.key| - 1] != EQUALS && f.key[|f.key| - 1] != BANG)
  }

  lemma OperatorsOfShown(f: Filter)
    requires f.operator != Unset
    ensures OperatorAt(Show(f), |f.key| + 1) && OperatorOf(Show(f), |f.key| + 1) == f.operator
    ensures forall j | 0 <= j < |f.key| :: OperatorAt(Show(f), j) <==> OperatorAt(f.key, j)
    ensures OperatorAt(Show(f), |f.key|) <==>
            f.operator == Equal && f.key != [] && (f.key[|f.key| - 1] == EQUALS || f.key[|f.key| - 1] == BANG)
    ensures Show(f)[..|f.key|] == f.key && Show(f)[|f.key| + 2..] == f.pattern
  {
    var s := Show(f);
    assert forall j | 0 <= j < |f.key| :: s[j] == f.key[j];
    assert s[|f.key|] == Text(f.operator)[0] && s[|f.key| + 1] == Text(f.operator)[1];
  }

  /** Writing a filter down and parsing it gives the filter back exactly when it is printable. */
  lemma RoundTripIff(f: Filter, carried: Operator)
    requires f.operator != Unset
    ensures ParseOne(Show(f), carried) == Good(f) <==> Printable(f)
  {
    var s := Show(f);
    OperatorsOfShown(f);
    var i := Find(s, 0).value;
    assert i <= |f.key| + 1;
    if i == |f.key| + 1 {
      assert f.key == [] || s[0] == f.key[0];
      assert Find(f.key, 0).None?;
    } else if ParseOne(s, carried).Good? {
      assert |ParseOne(s, carried).filter.key| < |f.key|;
    }
  }

  // ---- A list of strings ----

  function ParseAll(ss: seq<seq<byte>>, carried: Operator): Outcome {
    if ss == [] then Parsed([])
    else match ParseOne(ss[0], carried)
      case Bad => Invalid
      case Broken => Panics
      case Good(f) =>
        match ParseAll(ss[1..], f.operator)
        case Parsed(fs) => Parsed([f] + fs)
        case Invalid => Invalid
        case Panics => Panics
  }

  function ShowAll(fs: seq<Filter>): (ss: seq<seq<byte>>)
    ensures |ss| == |fs|
  {
    if fs == [] then [] else [Show(fs[0])] + ShowAll(fs[1..])
  }

  /** A list of filters comes back exactly when each of them is printable. */
  lemma {:induction false} ListRoundTripIff(fs: seq<Filter>, carried: Operator)
    requires forall f | f in fs :: f.operator != Unset
    ensures ParseAll(ShowAll(fs), carried) == Parsed(fs) <==> forall f | f in fs :: Printable(f)
  {
    if fs != [] {
      var f, rest := fs[0], fs[1..];
      assert f in fs && fs == [f] + rest;
      assert ShowAll(fs)[0] == Show(f) && ShowAll(fs)[1..] == ShowAll(rest);
      RoundTripIff(f, carried);
      ListRoundTripIff(rest, f.operator);
      if ParseAll(ShowAll(fs), carried) == Parsed(fs) {
        var p := ParseOne(Show(f), carried);
        assert fs[0] == p.filter && rest == ParseAll(ShowAll(rest), p.filter.operator).filters;
      }
    }
  }

  /** An ASCII string gives a filter that prints back to it, or fails whatever came before. */
  lemma AsciiOne(s: seq<byte>, carried: Operator)
    requires Ascii(s)
    ensures match ParseOne(s, carried)
            case Good(f) => Show(f) == s && f.operator != Unset && Printable(f)
            case bad => ParseOne(s, Unset) == bad
  {
    if HasOperator(s) {
      if ParseOne(s, carried).Good? {
        SplitAtLeftmost(s, carried);
        RoundTripIff(ParseOne(s, carried).filter, carried);
      }
    } else {
      WithoutOperator(s, carried);
      if s != [] {
        AsciiLast(s);
      }
    }
  }

  lemma ShowMore(f: Filter, fs: seq<Filter>)
    ensures ShowAll([f] + fs) == [Show(f)] + ShowAll(fs)
  {
    assert ([f] + fs)[1..] == fs;
  }

  /** Of ASCII strings every filter has an operator of its own and all of its text; one bad string refuses all. */
  lemma {:induction false} AsciiFaithful(ss: seq<seq<byte>>, carried: Operator)
    requires forall s | s in ss :: Ascii(s)
    ensures match ParseAll(ss, carried)
            case Parsed(fs) => ShowAll(fs) == ss && forall f | f in fs :: f.operator != Unset && Printable(f)
            case Invalid => exists s :: s in ss && ParseOne(s, Unset) == Bad
            case Panics => exists s :: s in ss && ParseOne(s, Unset) == Broken
  {
    if ss != [] {
      var s := ss[0];
      assert s in ss && forall t | t in ss[1..] :: t in ss;
      AsciiOne(s, carried);
      if ParseOne(s, carried).Good? {
        var f := ParseOne(s, carried).filter;
        AsciiFaithful(ss[1..], f.operator);
        if ParseAll(ss[1..], f.operator).Parsed? {
          ShowMore(f, ParseAll(ss[1..], f.operator).filters);
        }
      }
    }
  }

  // ---- The parser ----

  lemma ContinuationIsNoOperator(s: seq<byte>, i: nat)
    requires i < |s| && Utf8(s[i..])
    ensures i + Width(s[i]) <= |s| && Utf8(s[i + Width(s[i])..])
    ensures forall j | i < j < i + Width(s[i]) :: !OperatorAt(s, j)
    ensures LastStart(s[i..]) == if i + Width(s[i]) == |s| then 0 else Width(s[i]) + LastStart(s[i + Width(s[i])..])
  {
    var t, w := s[i..], Width(s[i]);
    assert t[0] == s[i] && t[w..] == s[i + w..];
    forall j | i < j < i + w ensures s[j] != EQUALS {
      assert s[j] == t[j - i];
    }
  }

  lemma {:induction false} FindSkips(s: seq<byte>, from: nat, to: nat)
    requires from <= to <= |s| && forall j | from <= j < to :: !OperatorAt(s, j)
    ensures Find(s, from) == Find(s, to)
    decreases |s| - from
  {
    if from < to {
      FindSkips(s, from + 1, to);
    }
  }

  /** Where the last character starts, from the start of some character on. */
  function LastFrom(s: seq<byte>, k: nat): nat
    requires k < |s|
  {
    k + LastStart(s[k..])
  }

  /** Stepping over a character that ends no operator. */
  lemma StepOver(s: seq<byte>, k: nat)
    requires k < |s| && Utf8(s[k..]) && !OperatorAt(s, k)
    ensures var next := k + Width(s[k]);
      && next <= |s| && Utf8(s[next..]) && Find(s, k) == Find(s, next)
      && LastFrom(s, k) == if next == |s| then k else LastFrom(s, next)
  {
    ContinuationIsNoOperator(s, k);
    FindSkips(s, k, k + Width(s[k]));
  }

  datatype Scanned = Scanned(ok: bool, index: nat, operator: Operator)

  /** The scan from position k on, character by character. */
  function ScanFrom(s: seq<byte>, k: nat, index: nat, carried: Operator): Scanned
    decreases |s| - k
  {
    if k >= |s| then Scanned(true, index, carried)
    else if s[k] == EQUALS && k == 0 then Scanned(false, k, carried)
    else if OperatorAt(s, k) then Scanned(true, k, OperatorOf(s, k))
    else ScanFrom(s, k + Width(s[k]), k, carried)
  }

  /** It skips no operator: the scan ends at the leftmost one, or at the last character. */
  lemma {:induction false} ScanFinds(s: seq<byte>, k: nat, index: nat, carried: Operator)
    requires k <= |s| && Utf8(s[k..]) && !(k == 0 && StartsWithEquals(s))
    ensures match Find(s, k)
            case Some(at) => ScanFrom(s, k, index, carried) == Scanned(true, at, OperatorOf(s, at))
            case None =>
              ScanFrom(s, k, index, carried) == Scanned(true, if k == |s| then index else LastFrom(s, k), carried)
    decreases |s| - k
  {
    if k < |s| && !OperatorAt(s, k) {
      StepOver(s, k);
      ScanFinds(s, k + Width(s[k]), k, carried);
    }
  }

  /** The inner loop of parseFilterString over the characters of a string: `i` and the operator keep their values
      when it finds nothing to change. */
  method Scan(s: seq<byte>, index: nat, carried: Operator) returns (ok: bool, i: nat, operator: Operator)
    requires Utf8(s)
    ensures ok <==> !StartsWithEquals(s)
    ensures ok ==> match Find(s, 0)
                   case Some(at) => i == at && operator == OperatorOf(s, at)
                   case None => operator == carried && i == if s == [] then index else LastFrom(s, 0)
  {
    ok, i, operator := true, index, carried;
    var k := 0;
    if !StartsWithEquals(s) {
      assert s[0..] == s;
      ScanFinds(s, 0, index, carried);
    }
    while k < |s|
      invariant k >= 0 && ok && operator == carried
      invariant ScanFrom(s, 0, index, carried) == ScanFrom(s, k, i, operator)
      decreases |s| - k
    {
      i := k;
      if s[i] == EQUALS && i == 0 {
        return false, i, operator;
      }
      if s[i] == EQUALS && s[i - 1] == EQUALS {
        operator := Equal;
        return;
      }
      if s[i] == EQUALS && s[i - 1] == BANG {
        operator := NotEqual;
        return;
      }
      k := k + Width(s[k]);
    }
  }

  /** parseFilterString. */
  method ParseFilterString(f: seq<seq<byte>>) returns (out: Outcome)
    requires forall s | s in f :: Utf8(s)
    ensures out == ParseAll(f, Unset)
  {
    var i: nat, operator, filters := 0, Unset, [];
    assert f[0..] == f;
    for n := 0 to |f|
      invariant ParseAll(f, Unset) == match ParseAll(f[n..], operator)
                                      case Parsed(fs) => Parsed(filters + fs)
                                      case Invalid => Invalid
                                      case Panics => Panics
    {
      var s := f[n];
      assert f[n..][0] == s && f[n..][1..] == f[n + 1..];
      var ok;
      ok, i, operator := Scan(s, i, operator);
      if !ok {
        return Panics;
      }
      if i >= |s| - 1 {
        return Invalid;
      }
      if i == 0 {
        return Panics;
      }
      var filter := Filter(s[..i - 1], operator, s[i + 1..]);
      assert forall fs: seq<Filter> :: filters + ([filter] + fs) == filters + [filter] + fs;
      filters := filters + [filter];
    }
    assert filters + [] == filters;
    out := Parsed(filters);
  }
}
