/** Day 16: the scan of valves, their flow rates and the tunnels between
    them, read line by line, and the table of valves by name. */
module Day16 {
  import opened Common

  /** A valve: its name, its flow rate (a `u16`) and the valves its
      tunnels lead to. */
  datatype Valve = Valve(name: string, flow: nat, neighbors: seq<string>)

  /** nom's `alpha1` takes ASCII letters. */
  predicate IsAlpha(c: char)
  {
    'a' <= c <= 'z' || 'A' <= c <= 'Z'
  }

  /** A name `alpha1` can read: one letter or more. */
  predicate ValidName(s: string)
  {
    |s| >= 1 && forall i :: 0 <= i < |s| ==> IsAlpha(s[i])
  }

  /** A valve the scan can describe. */
  predicate WellFormed(v: Valve)
  {
    ValidName(v.name) && v.flow <= U16_MAX &&
    forall k :: 0 <= k < |v.neighbors| ==> ValidName(v.neighbors[k])
  }

  /** The length of the run of letters at the start of `s`. */
  function AlphaRun(s: string): (n: nat)
    ensures n <= |s| && (forall i :: 0 <= i < n ==> IsAlpha(s[i])) && (n < |s| ==> !IsAlpha(s[n]))
  {
    if s == [] || !IsAlpha(s[0]) then 0 else 1 + AlphaRun(s[1..])
  }

  /** `alpha1`: the longest run of letters, which must not be empty, and
      what follows it. */
  function Name(s: string): (r: Option<(string, string)>)
    ensures r.None? <==> s == [] || !IsAlpha(s[0])
    ensures r.Some? ==> ValidName(r.value.0) && s == r.value.0 + r.value.1
    ensures r.Some? ==> r.value.1 == [] || !IsAlpha(r.value.1[0])
  {
    var n := AlphaRun(s);
    if n == 0 then None
    else
      assert s == s[..n] + s[n..];
      Some((s[..n], s[n..]))
  }

  /** The names after the first one of `separated_list0(tag(", "), alpha1)`:
      each is a separator and a name, and the list stops before a separator
      that no name follows. */
  function MoreNames(s: string): (r: (seq<string>, string))
    decreases |s|
  {
    match Tag(s, ", ")
    case None => ([], s)
    case Some(s1) =>
      match Name(s1)
      case None => ([], s)
      case Some((n, s2)) =>
        var (ns, rest) := MoreNames(s2);
        ([n] + ns, rest)
  }

  /** `separated_list0(tag(", "), alpha1)`: no names at all when the first
      one is missing. */
  function NameList(s: string): (r: (seq<string>, string))
  {
    match Name(s)
    case None => ([], s)
    case Some((n, rest)) =>
      var (ns, rest') := MoreNames(rest);
      ([n] + ns, rest')
  }

  const PLURAL := "; tunnels lead to valves "
  const SINGULAR := "; tunnel leads to valve "

  /** `alt` of the two phrasings, the plural one tried first. */
  function Tunnels(s: string): (r: Option<string>)
  {
    match Tag(s, PLURAL)
    case Some(rest) => Some(rest)
    case None => Tag(s, SINGULAR)
  }

  /** `parse_line`: a line read as a valve; what follows the list of
      neighbours is ignored. A line that does not parse is a panic at
      `unwrap`, `None` here. */
  function ParseLine(line: string): (r: Option<Valve>)
  {
    match Tag(line, "Valve ")
    case None => None
    case Some(a) =>
      match Name(a)
      case None => None
      case Some((name, b)) =>
        match Details(b)
        case None => None
        case Some((flow, neighbors)) => Some(Valve(name, flow, neighbors))
  }

  /** The part of `parse_line` after the name: the flow rate, the phrase
      about tunnels and the list of neighbours. */
  function Details(b: string): Option<(nat, seq<string>)>
  {
    match Tag(b, " has flow rate=")
    case None => None
    case Some(c) =>
      match Number(c, U16_MAX)
      case None => None
      case Some((flow, d)) =>
        match Tunnels(d)
        case None => None
        case Some(e) => Some((flow, NameList(e).0))
  }

  /** `parse_input`: the valves of every line of the input. */
  function ParseInput(input: string): Option<seq<Valve>>
  {
    ParseEach(Lines(input), ParseLine)
  }

  /** The valves by name, as `collect` into a `HashMap` builds it: a name
      that occurs twice keeps its last valve. */
  function Table(vs: seq<Valve>): map<string, Valve>
  {
    if vs == [] then map[] else Table(vs[..|vs| - 1])[vs[|vs| - 1].name := vs[|vs| - 1]]
  }

  /** Every valve of the table is filed under its own name. */
  predicate Named(valves: map<string, Valve>)
  {
    forall n :: n in valves ==> valves[n].name == n
  }

  /** Every valve of the table is filed under its own name. */
  lemma {:induction false} TableNamed(vs: seq<Valve>)
    ensures Named(Table(vs))
    decreases |vs|
  {
    if vs != [] {
      TableNamed(vs[..|vs| - 1]);
    }
  }

  /** The table holds exactly the names of the valves. */
  lemma {:induction false} TableKeys(vs: seq<Valve>)
    ensures forall n :: n in Table(vs) <==> exists k :: 0 <= k < |vs| && vs[k].name == n
    decreases |vs|
  {
    if vs != [] {
      var init := vs[..|vs| - 1];
      TableKeys(init);
      forall n | exists k :: 0 <= k < |vs| && vs[k].name == n
        ensures n in Table(vs)
      {
        var k :| 0 <= k < |vs| && vs[k].name == n;
        if k < |init| {
          assert init[k].name == n;
        }
      }
      forall n | n in Table(vs)
        ensures exists k :: 0 <= k < |vs| && vs[k].name == n
      {
        if n != vs[|vs| - 1].name {
          assert n in Table(init);
          var k :| 0 <= k < |init| && init[k].name == n;
          assert vs[k].name == n;
        }
      }
    }
  }

  /** Under each name the table keeps the last valve of that name. */
  lemma {:induction false} TableLast(vs: seq<Valve>)
    ensures forall n :: n in Table(vs) ==>
              exists k :: 0 <= k < |vs| && vs[k] == Table(vs)[n] && forall j :: k < j < |vs| ==> vs[j].name != n
    decreases |vs|
  {
    if vs != [] {
      var init := vs[..|vs| - 1];
      TableLast(init);
      forall n | n in Table(vs)
        ensures exists k :: 0 <= k < |vs| && vs[k] == Table(vs)[n] && forall j :: k < j < |vs| ==> vs[j].name != n
      {
        if n == vs[|vs| - 1].name {
          assert vs[|vs| - 1] == Table(vs)[n];
        } else {
          var k :| 0 <= k < |init| && init[k] == Table(init)[n] && forall j :: k < j < |init| ==> init[j].name != n;
          assert vs[k] == Table(vs)[n];
        }
      }
    }
  }

  /** The names of a list as the scan writes them. */
  function NamesText(ns: seq<string>): string
  {
    if ns == [] then "" else Join(ns, ", ")
  }

  /** A valve written as a line of the scan, with either phrasing of the
      tunnels. */
  function Text(v: Valve, plural: bool): string
  {
    "Valve " + (v.name + (" has flow rate=" + (Decimal(v.flow) + ((if plural then PLURAL else SINGULAR) + NamesText(v.neighbors)))))
  }

  /** A name is read back whole when no letter follows it. */
  lemma {:induction false} NameRoundTrip(n: string, rest: string)
    requires ValidName(n) && (rest == [] || !IsAlpha(rest[0]))
    ensures Name(n + rest) == Some((n, rest))
  {
    var s := n + rest;
    AlphaAll(n, rest);
    assert s[..|n|] == n && s[|n|..] == rest;
  }

  lemma {:induction false} AlphaAll(n: string, rest: string)
    requires forall i :: 0 <= i < |n| ==> IsAlpha(n[i])
    requires rest == [] || !IsAlpha(rest[0])
    ensures AlphaRun(n + rest) == |n|
    decreases |n|
  {
    if n != [] {
      assert (n + rest)[1..] == n[1..] + rest;
      AlphaAll(n[1..], rest);
    } else {
      assert n + rest == rest;
    }
  }

  /** One separator and a name in front of a list that is not followed by a
      letter: the name joins the list. */
  lemma MoreNamesStep(n: string, tail: string)
    requires ValidName(n) && (tail == [] || tail[0] == ',')
    ensures MoreNames(", " + n + tail) == ([n] + MoreNames(tail).0, MoreNames(tail).1)
  {
    assert ", " + n + tail == ", " + (n + tail);
    TagRoundTrip(", ", n + tail);
    NameRoundTrip(n, tail);
  }

  /** The list after its first name, each behind its separator. */
  function Tail(ns: seq<string>): string
  {
    if ns == [] then "" else ", " + Join(ns, ", ")
  }

  lemma {:induction false} TailSplit(ns: seq<string>)
    requires ns != []
    ensures Tail(ns) == ", " + ns[0] + Tail(ns[1..])
  {
  }

  /** The first name of a written tail is read back in front of the rest. */
  lemma MoreNamesCons(ns: seq<string>)
    requires ns != [] && ValidName(ns[0])
    ensures MoreNames(Tail(ns)) == ([ns[0]] + MoreNames(Tail(ns[1..])).0, MoreNames(Tail(ns[1..])).1)
  {
    var rest := ns[1..];
    TailSplit(ns);
    assert Tail(rest) == [] || Tail(rest)[0] == ',';
    MoreNamesStep(ns[0], Tail(rest));
  }

  lemma MoreNamesEmpty()
    ensures MoreNames("") == ([], "")
  {
    assert Tag("", ", ") == None;
  }

  /** The names after the first, each behind its separator, are read back. */
  lemma {:induction false} MoreNamesRoundTrip(ns: seq<string>)
    requires forall k :: 0 <= k < |ns| ==> ValidName(ns[k])
    ensures MoreNames(Tail(ns)) == (ns, "")
    decreases |ns|
  {
    if ns == [] {
      MoreNamesEmpty();
    } else {
      MoreNamesRoundTrip(ns[1..]);
      MoreNamesCons(ns);
      assert [ns[0]] + ns[1..] == ns;
    }
  }

  /** A written list of names is read back whole. */
  lemma {:induction false} NameListRoundTrip(ns: seq<string>)
    requires forall k :: 0 <= k < |ns| ==> ValidName(ns[k])
    ensures NameList(NamesText(ns)) == (ns, "")
  {
    if ns != [] {
      var rest := ns[1..];
      assert NamesText(ns) == ns[0] + Tail(rest);
      assert Tail(rest) == [] || Tail(rest)[0] == ',';
      NameRoundTrip(ns[0], Tail(rest));
      MoreNamesRoundTrip(rest);
      assert [ns[0]] + rest == ns;
    }
  }

  /** The singular phrasing is not mistaken for the plural one. */
  lemma TunnelsSingular(rest: string)
    ensures Tunnels(SINGULAR + rest) == Some(rest)
  {
    var s := SINGULAR + rest;
    assert s[8] == ' ' && PLURAL[8] == 's';
    assert Tag(s, PLURAL) == None;
    TagRoundTrip(SINGULAR, rest);
  }

  /** What follows a written name is read back, whichever phrasing the
      line uses. */
  lemma {:induction false} DetailsRoundTrip(flow: nat, neighbors: seq<string>, plural: bool)
    requires flow <= U16_MAX && forall k :: 0 <= k < |neighbors| ==> ValidName(neighbors[k])
    ensures Details(" has flow rate=" + (Decimal(flow) + ((if plural then PLURAL else SINGULAR) + NamesText(neighbors))))
            == Some((flow, neighbors))
  {
    var names := NamesText(neighbors);
    var tunnels := (if plural then PLURAL else SINGULAR) + names;
    var d := Decimal(flow) + tunnels;
    TagRoundTrip(" has flow rate=", d);
    NumberRoundTrip(flow, U16_MAX, tunnels);
    if plural {
      TagRoundTrip(PLURAL, names);
    } else {
      TunnelsSingular(names);
    }
    NameListRoundTrip(neighbors);
  }

  /** A line that names a valve is read as that name and the details
      that follow it. */
  lemma LineOf(name: string, c: string)
    requires ValidName(name) && c != [] && c[0] == ' '
    ensures ParseLine("Valve " + (name + c)) ==
            if Details(c).Some? then Some(Valve(name, Details(c).value.0, Details(c).value.1)) else None
  {
    TagRoundTrip("Valve ", name + c);
    NameRoundTrip(name, c);
  }

  /** Reading a written valve gives it back, whichever phrasing the line
      uses. */
  lemma {:induction false} LineRoundTrip(v: Valve, plural: bool)
    requires WellFormed(v)
    ensures ParseLine(Text(v, plural)) == Some(v)
  {
    var c := " has flow rate=" + (Decimal(v.flow) + ((if plural then PLURAL else SINGULAR) + NamesText(v.neighbors)));
    LineOf(v.name, c);
    DetailsRoundTrip(v.flow, v.neighbors, plural);
  }
}
