/** What getopt (nsd/getopt.c, short options, permuting) should make of a command line: one
    left-to-right reading, with options and other arguments set apart. */
module GetoptSpec {
  import opened Common

  /** What a call returns: the option character, `?` or `:`; optarg; and optopt, if set. */
  datatype Event = Event(c: char, optarg: Option<string>, optopt: Option<char>)

  datatype Kind = Invalid | Plain | Required | Optional

  function Find(s: string, c: char): (r: nat)
    ensures r <= |s| && (r < |s| ==> s[r] == c) && c !in s[..r]
  {
    if s == "" || s[0] == c then 0 else 1 + Find(s[1..], c)
  }

  function KindOf(optstring: string, c: char): Kind {
    var i := Find(optstring, c);
    if i == |optstring| || c == ':' then Invalid
    else if i + 1 == |optstring| || optstring[i + 1] != ':' then Plain
    else if i + 2 == |optstring| || optstring[i + 2] != ':' then Required
    else Optional
  }

  /** NONOPTION_P, without flags from the shell. */
  predicate NonOption(s: string) {
    s == "" || s[0] != '-' || s == "-"
  }

  function Missing(optstring: string): char {
    if optstring != "" && optstring[0] == ':' then ':' else '?'
  }

  /** What is left of an element of options, `next` being the elements after it: what the
      calls return, and how many of those elements are taken as arguments. */
  function Cluster(optstring: string, s: string, next: seq<string>): (r: (seq<Event>, nat))
    ensures r.1 <= 1 && r.1 <= |next| && (s != "" ==> r.0 != [])
  {
    if s == "" then ([], 0)
    else
      var c, rest := s[0], s[1..];
      match KindOf(optstring, c)
      case Invalid => ([Event('?', None, Some(c))] + Cluster(optstring, rest, next).0, Cluster(optstring, rest, next).1)
      case Plain => ([Event(c, None, None)] + Cluster(optstring, rest, next).0, Cluster(optstring, rest, next).1)
      case Optional => ([Event(c, if rest != "" then Some(rest) else None, None)], 0)
      case Required =>
        if rest != "" then ([Event(c, Some(rest), None)], 0)
        else if next == [] then ([Event(Missing(optstring), None, Some(c))], 0)
        else ([Event(c, Some(next[0]), None)], 1)
  }

  datatype Reading = Reading(events: seq<Event>, options: seq<string>, others: seq<string>)

  /** Options with their arguments and the first `--` on one side, all else on the other. */
  function Read(optstring: string, args: seq<string>): (r: Reading)
    decreases |args|
  {
    if args == [] then Reading([], [], [])
    else if args[0] == "--" then Reading([], ["--"], args[1..])
    else if NonOption(args[0]) then
      var r := Read(optstring, args[1..]);
      Reading(r.events, r.options, [args[0]] + r.others)
    else
      var e := Cluster(optstring, args[0][1..], args[1..]);
      var r := Read(optstring, args[1 + e.1..]);
      Reading(e.0 + r.events, args[..1 + e.1] + r.options, r.others)
  }

  /** Reading on in the middle of the first element, with `s` left of it. */
  function ReadOn(optstring: string, s: string, args: seq<string>): (r: Reading)
    requires s != "" ==> args != []
  {
    if s == "" then Read(optstring, args)
    else
      var e := Cluster(optstring, s, args[1..]);
      var r := Read(optstring, args[1 + e.1..]);
      Reading(e.0 + r.events, args[..1 + e.1] + r.options, r.others)
  }

  /** `s` is `a` and `b` interleaved, each in its own order. */
  ghost predicate Merges(s: seq<string>, a: seq<string>, b: seq<string>) {
    if s == [] then a == [] && b == []
    else
      || (a != [] && a[0] == s[0] && Merges(s[1..], a[1..], b))
      || (b != [] && b[0] == s[0] && Merges(s[1..], a, b[1..]))
  }

  lemma {:induction false} MergesLeft(p: seq<string>, s: seq<string>, a: seq<string>, b: seq<string>)
    requires Merges(s, a, b)
    ensures Merges(p + s, p + a, b)
  {
    if p == [] {
      assert p + s == s && p + a == a;
    } else {
      MergesLeft(p[1..], s, a, b);
      assert (p + s)[1..] == p[1..] + s && (p + a)[1..] == p[1..] + a;
    }
  }

  lemma {:induction false} MergesRight(s: seq<string>)
    ensures Merges(s, [], s)
  {
    if s != [] {
      MergesRight(s[1..]);
    }
  }

  /** The two sides are a partition of the command line, and both keep its order. */
  lemma {:induction false} ReadPartitions(optstring: string, args: seq<string>)
    ensures Merges(args, Read(optstring, args).options, Read(optstring, args).others)
    decreases |args|
  {
    if args == [] {
    } else if args[0] == "--" {
      MergesRight(args[1..]);
      MergesLeft(["--"], args[1..], [], args[1..]);
      assert args == ["--"] + args[1..];
    } else if NonOption(args[0]) {
      ReadPartitions(optstring, args[1..]);
      var r := Read(optstring, args[1..]);
      assert ([args[0]] + r.others)[1..] == r.others;
    } else {
      var k := 1 + Cluster(optstring, args[0][1..], args[1..]).1;
      ReadPartitions(optstring, args[k..]);
      var r := Read(optstring, args[k..]);
      MergesLeft(args[..k], args[k..], r.options, r.others);
      assert args == args[..k] + args[k..];
    }
  }

  /** So nothing is lost or doubled. */
  lemma {:induction false} MergesPermute(s: seq<string>, a: seq<string>, b: seq<string>)
    requires Merges(s, a, b)
    ensures multiset(a + b) == multiset(s)
  {
    if s != [] {
      assert s == [s[0]] + s[1..];
      if a != [] && a[0] == s[0] && Merges(s[1..], a[1..], b) {
        MergesPermute(s[1..], a[1..], b);
        assert a == [a[0]] + a[1..];
      } else {
        MergesPermute(s[1..], a, b[1..]);
        assert b == [b[0]] + b[1..];
      }
    }
  }
}
