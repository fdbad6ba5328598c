/** What options are declared, what a command line is written from, and what of it is reported. */
module GetoptLaws {
  import opened Common
  import opened GetoptSpec

  // ----- declaring options -----

  /** An option, and whether it has an argument. */
  datatype Opt = Opt(c: char, arg: Kind)

  function Colons(arg: Kind): string {
    match arg case Required => ":" case Optional => "::" case _ => ""
  }

  ghost function Declared(opts: seq<Opt>): string {
    if opts == [] then "" else [opts[0].c] + (Colons(opts[0].arg) + Declared(opts[1..]))
  }

  ghost predicate Declarable(opts: seq<Opt>) {
    && (forall i :: 0 <= i < |opts| ==> opts[i].c != ':' && opts[i].arg != Invalid)
    && (forall i, j :: 0 <= i < j < |opts| ==> opts[i].c != opts[j].c)
  }

  lemma FindNext(x: char, s: string, c: char)
    ensures Find([x] + s, c) == if x == c then 0 else 1 + Find(s, c)
  {
    assert ([x] + s)[1..] == s;
  }

  lemma KindNext(x: char, s: string, c: char)
    requires x != c
    ensures KindOf([x] + s, c) == KindOf(s, c)
  {
    hide Find;
    FindNext(x, s, c);
  }

  lemma KindBehind(arg: Kind, s: string, c: char)
    ensures KindOf(Colons(arg) + s, c) == KindOf(s, c)
  {
    if c == ':' { return; }
    hide KindOf;
    KindNext(':', s, c);
    KindNext(':', [':'] + s, c);
    ColonsFirst(arg, s);
  }

  lemma ColonsFirst(arg: Kind, s: string)
    ensures Colons(arg) + s
         == if arg == Required then [':'] + s else if arg == Optional then [':'] + ([':'] + s) else s
  {
  }

  /** A colon behind an option means a required argument, two an optional one; what is not
      declared is invalid, and so is a colon. A first colon declares nothing. */
  lemma {:induction false} KindsAreDeclared(opts: seq<Opt>)
    requires Declarable(opts)
    ensures forall o :: o in opts ==> KindOf(Declared(opts), o.c) == o.arg && KindOf(":" + Declared(opts), o.c) == o.arg
    ensures forall c :: (forall i :: 0 <= i < |opts| ==> opts[i].c != c) ==>
              KindOf(Declared(opts), c) == Invalid && KindOf(":" + Declared(opts), c) == Invalid
  {
    hide Declared; hide KindOf;
    forall c ensures KindOf(":" + Declared(opts), c) == KindOf(Declared(opts), c) {
      KindBehind(Required, Declared(opts), c);
    }
    if opts == [] {
      NoneDeclared();
    } else {
      KindsAreDeclared(opts[1..]);
      KindOfFirst(opts);
      forall c | c != opts[0].c ensures KindOf(Declared(opts), c) == KindOf(Declared(opts[1..]), c) {
        KindOfOthers(opts, c);
      }
      assert opts == [opts[0]] + opts[1..];
    }
  }

  lemma NoneDeclared()
    ensures forall c :: KindOf(Declared([]), c) == Invalid
  {
  }

  lemma KindOfOthers(opts: seq<Opt>, c: char)
    requires opts != [] && c != opts[0].c
    ensures KindOf(Declared(opts), c) == KindOf(Declared(opts[1..]), c)
  {
    hide KindOf; hide Colons;
    KindNext(opts[0].c, Colons(opts[0].arg) + Declared(opts[1..]), c);
    KindBehind(opts[0].arg, Declared(opts[1..]), c);
  }

  lemma KindOfFirst(opts: seq<Opt>)
    requires opts != [] && Declarable(opts)
    ensures KindOf(Declared(opts), opts[0].c) == opts[0].arg
  {
    var s := Declared(opts[1..]);
    assert s == "" || s[0] != ':';
    hide Declared;
    FindNext(opts[0].c, Colons(opts[0].arg) + s, opts[0].c);
    hide Find;
  }

  // ----- writing a command line -----

  /** How an element of options may end: an argument behind its option, or in the next element,
      or an option without the argument it might have. */
  datatype Last = NoArg | Behind(c: char, arg: string) | Next(c: char, arg: string) | Bare(c: char)

  datatype Item = Group(flags: string, last: Last) | Other(arg: string)

  /** How a command line may end: without more, with `--` and anything, or with an option that
      lacks its argument. */
  datatype End = Stop | Dashes(rest: seq<string>) | Lacking(flags: string, c: char)

  ghost function Written(item: Item): seq<string> {
    match item
    case Other(arg) => [arg]
    case Group(flags, last) =>
      match last
      case NoArg => ["-" + flags]
      case Behind(c, arg) => ["-" + (flags + ([c] + arg))]
      case Next(c, arg) => ["-" + (flags + [c]), arg]
      case Bare(c) => ["-" + (flags + [c])]
  }

  /** With an argument, or perhaps one. */
  predicate Takes(kind: Kind) {
    kind == Required || kind == Optional
  }

  ghost predicate Flags(optstring: string, flags: string) {
    forall i :: 0 <= i < |flags| ==> !Takes(KindOf(optstring, flags[i]))
  }

  ghost predicate Good(optstring: string, item: Item) {
    match item
    case Other(arg) => NonOption(arg)
    case Group(flags, last) =>
      && Flags(optstring, flags) && Written(item)[0] != "-" && Written(item)[0] != "--"
      && match last
         case NoArg => true
         case Behind(c, arg) => arg != "" && Takes(KindOf(optstring, c))
         case Next(c, _) => KindOf(optstring, c) == Required
         case Bare(c) => KindOf(optstring, c) == Optional
  }

  ghost predicate GoodEnd(optstring: string, end: End) {
    end.Lacking? ==> Flags(optstring, end.flags) && KindOf(optstring, end.c) == Required && end.flags + [end.c] != "-"
  }

  ghost function EndWritten(end: End): seq<string> {
    match end
    case Stop => []
    case Dashes(rest) => ["--"] + rest
    case Lacking(flags, c) => ["-" + (flags + [c])]
  }

  ghost function Line(items: seq<Item>, end: End): seq<string> {
    if items == [] then EndWritten(end) else Written(items[0]) + Line(items[1..], end)
  }

  // ----- what is to be reported -----

  /** One event for each: the option, or a question mark with what is not one in optopt. */
  ghost function FlagTold(optstring: string, c: char): Event {
    if KindOf(optstring, c) == Invalid then Event('?', None, Some(c)) else Event(c, None, None)
  }

  ghost function FlagsTold(optstring: string, flags: string): seq<Event> {
    if flags == "" then [] else [FlagTold(optstring, flags[0])] + FlagsTold(optstring, flags[1..])
  }

  ghost function Told(optstring: string, item: Item): seq<Event> {
    match item
    case Other(_) => []
    case Group(flags, last) =>
      FlagsTold(optstring, flags)
      + match last
        case NoArg => []
        case Behind(c, arg) => [Event(c, Some(arg), None)]
        case Next(c, arg) => [Event(c, Some(arg), None)]
        case Bare(c) => [Event(c, None, None)]
  }

  /** A colon for the missing argument, if the declarations begin with one. */
  ghost function EndTold(optstring: string, end: End): seq<Event> {
    if end.Lacking? then
      FlagsTold(optstring, end.flags) + [Event(if ":" <= optstring then ':' else '?', None, Some(end.c))]
    else []
  }

  ghost function AllTold(optstring: string, items: seq<Item>, end: End): seq<Event> {
    if items == [] then EndTold(optstring, end) else Told(optstring, items[0]) + AllTold(optstring, items[1..], end)
  }

  ghost function Options(items: seq<Item>, end: End): seq<string> {
    if items == [] then (if end.Dashes? then ["--"] else EndWritten(end))
    else (if items[0].Other? then [] else Written(items[0])) + Options(items[1..], end)
  }

  ghost function Others(items: seq<Item>, end: End): seq<string> {
    if items == [] then (if end.Dashes? then end.rest else [])
    else (if items[0].Other? then [items[0].arg] else []) + Others(items[1..], end)
  }

  // ----- it is -----

  /** What the calls report of some flags and then `s`. */
  ghost predicate FlagsThen(optstring: string, flags: string, s: string, next: seq<string>) {
    var e := Cluster(optstring, s, next);
    Cluster(optstring, flags + s, next) == (FlagsTold(optstring, flags) + e.0, e.1)
  }

  lemma {:induction false} ClusterFlags(optstring: string, flags: string, s: string, next: seq<string>)
    requires Flags(optstring, flags)
    ensures FlagsThen(optstring, flags, s, next)
  {
    if flags == "" {
      hide Cluster;
      assert flags + s == s && [] + Cluster(optstring, s, next).0 == Cluster(optstring, s, next).0;
    } else {
      ClusterFlags(optstring, flags[1..], s, next);
      assert !Takes(KindOf(optstring, flags[0]));
      hide KindOf; hide Cluster; hide Takes; hide Flags;
      ClusterOneMore(optstring, flags, s, next);
    }
  }

  lemma ClusterOneMore(optstring: string, flags: string, s: string, next: seq<string>)
    requires flags != "" && !Takes(KindOf(optstring, flags[0])) && FlagsThen(optstring, flags[1..], s, next)
    ensures FlagsThen(optstring, flags, s, next)
  {
    hide KindOf; hide Cluster; hide Takes; hide FlagTold;
    var all, e := flags + s, Cluster(optstring, s, next).0;
    assert all[1..] == flags[1..] + s && all[0] == flags[0];
    OneFlag(optstring, all, next);
    var f, fs := FlagTold(optstring, flags[0]), FlagsTold(optstring, flags[1..]);
    assert FlagsTold(optstring, flags) == [f] + fs;
    hide FlagsTold;
    EventsBehind([f], fs, e);
  }

  lemma EventsBehind(a: seq<Event>, b: seq<Event>, c: seq<Event>)
    ensures a + (b + c) == (a + b) + c
  {
  }

  lemma OneFlag(optstring: string, s: string, next: seq<string>)
    requires s != "" && !Takes(KindOf(optstring, s[0]))
    ensures var e := Cluster(optstring, s[1..], next);
            Cluster(optstring, s, next)
              == ([FlagTold(optstring, s[0])] + e.0, e.1)
  {
  }

  lemma ClusterArg(optstring: string, c: char, arg: string, next: seq<string>)
    ensures Takes(KindOf(optstring, c)) && arg != "" ==>
              Cluster(optstring, [c] + arg, next) == ([Event(c, Some(arg), None)], 0)
    ensures KindOf(optstring, c) == Optional ==> Cluster(optstring, [c], next) == ([Event(c, None, None)], 0)
    ensures KindOf(optstring, c) == Required && next != [] ==>
              Cluster(optstring, [c], next) == ([Event(c, Some(next[0]), None)], 1)
    ensures KindOf(optstring, c) == Required ==>
              Cluster(optstring, [c], []) == ([Event(if ":" <= optstring then ':' else '?', None, Some(c))], 0)
  {
    hide KindOf;
    assert ([c] + arg)[1..] == arg && [c][1..] == "";
  }

  /** One element of options, and its argument. */
  lemma GroupRead(optstring: string, item: Item, t: seq<string>)
    requires item.Group? && Good(optstring, item)
    ensures var args := Written(item) + t;
            var e := Cluster(optstring, args[0][1..], args[1..]);
            && !NonOption(args[0]) && args[0] != "--"
            && e.0 == Told(optstring, item) && 1 + e.1 == |Written(item)|
  {
    var args := Written(item) + t;
    var flags, last := item.flags, item.last;
    hide KindOf; hide Cluster;
    if last.NoArg? {
      ClusterFlags(optstring, flags, "", args[1..]);
      assert flags + "" == flags && args[0][1..] == flags && Cluster(optstring, "", args[1..]) == ([], 0) by {
        EmptyCluster(optstring, args[1..]);
      }
    } else {
      var s := [last.c] + if last.Behind? then last.arg else "";
      ClusterFlags(optstring, flags, s, args[1..]);
      ClusterArg(optstring, last.c, if last.Behind? then last.arg else "", args[1..]);
      assert args[0][1..] == flags + s && (last.Next? ==> args[1] == last.arg);
      assert [last.c] + "" == [last.c];
    }
  }

  lemma EmptyCluster(optstring: string, next: seq<string>)
    ensures Cluster(optstring, "", next) == ([], 0)
  {
  }

  lemma EndRead(optstring: string, end: End)
    requires GoodEnd(optstring, end)
    ensures Read(optstring, EndWritten(end)) == Reading(EndTold(optstring, end), Options([], end), Others([], end))
  {
    hide KindOf;
    if end.Lacking? {
      var args := EndWritten(end);
      LackingRead(optstring, end.flags, end.c);
      hide Cluster;
      assert args[1..] == [] && args[..1] == args && args[0][1..] == end.flags + [end.c];
      assert Read(optstring, []) == Reading([], [], []);
    } else if end.Dashes? {
      assert (["--"] + end.rest)[1..] == end.rest;
    }
  }

  lemma LackingRead(optstring: string, flags: string, c: char)
    requires Flags(optstring, flags) && KindOf(optstring, c) == Required
    ensures Cluster(optstring, flags + [c], []) == (EndTold(optstring, Lacking(flags, c)), 0)
  {
    hide KindOf; hide Cluster;
    ClusterFlags(optstring, flags, [c], []);
    ClusterArg(optstring, c, "", []);
  }

  /** A command line is reported as it was written: option by option, each with its argument;
      the other arguments are set apart. */
  lemma {:induction false} LineIsRead(optstring: string, items: seq<Item>, end: End)
    requires GoodEnd(optstring, end) && forall i :: 0 <= i < |items| ==> Good(optstring, items[i])
    ensures Read(optstring, Line(items, end))
         == Reading(AllTold(optstring, items, end), Options(items, end), Others(items, end))
  {
    if items == [] {
      EndRead(optstring, end);
    } else {
      LineIsRead(optstring, items[1..], end);
      OneRead(optstring, items[0], Line(items[1..], end));
      hide Read; hide Good; hide Written; hide Told;
      var o := Others(items[1..], end);
      assert [] + o == o && [] + Options(items[1..], end) == Options(items[1..], end);
    }
  }

  lemma OneRead(optstring: string, item: Item, t: seq<string>)
    requires Good(optstring, item)
    ensures var r := Read(optstring, t);
            Read(optstring, Written(item) + t)
              == Reading(Told(optstring, item) + r.events, (if item.Other? then [] else Written(item)) + r.options,
                         (if item.Other? then [item.arg] else []) + r.others)
  {
    var args, r := Written(item) + t, Read(optstring, t);
    if item.Other? {
      assert args[1..] == t;
      hide Read; hide NonOption;
      OtherRead(optstring, args);
      assert [] + r.events == r.events && [] + r.options == r.options;
    } else {
      GroupRead(optstring, item, t);
      var k := |Written(item)|;
      assert args[k..] == t && args[..k] == Written(item);
      hide Read; hide Good; hide Written; hide Told; hide Cluster;
      OptionRead(optstring, args);
      assert [] + r.others == r.others;
    }
  }

  lemma OtherRead(optstring: string, args: seq<string>)
    requires args != [] && NonOption(args[0])
    ensures var r := Read(optstring, args[1..]);
            Read(optstring, args) == Reading(r.events, r.options, [args[0]] + r.others)
  {
  }

  lemma OptionRead(optstring: string, args: seq<string>)
    requires args != [] && !NonOption(args[0]) && args[0] != "--"
    ensures var e := Cluster(optstring, args[0][1..], args[1..]);
            var r := Read(optstring, args[1 + e.1..]);
            Read(optstring, args) == Reading(e.0 + r.events, args[..1 + e.1] + r.options, r.others)
  {
  }

  // ----- and any command line is written so -----

  /** The flags of an element, up to an option with an argument. */
  lemma {:induction false} FlagsOf(optstring: string, s: string) returns (k: nat)
    ensures k <= |s| && Flags(optstring, s[..k]) && (k < |s| ==> Takes(KindOf(optstring, s[k])))
  {
    hide KindOf;
    if s == "" || Takes(KindOf(optstring, s[0])) {
      k := 0;
    } else {
      var n := FlagsOf(optstring, s[1..]);
      k := n + 1;
      forall i | 0 <= i < k ensures !Takes(KindOf(optstring, s[..k][i])) {
        assert i > 0 ==> s[..k][i] == s[1..][..n][i - 1];
        assert s[..k][0] == s[0];
      }
    }
  }

  lemma OneMoreItem(optstring: string, item: Item, items: seq<Item>, end: End)
    requires Good(optstring, item) && forall i :: 0 <= i < |items| ==> Good(optstring, items[i])
    ensures forall i :: 0 <= i < |[item] + items| ==> Good(optstring, ([item] + items)[i])
    ensures Line([item] + items, end) == Written(item) + Line(items, end)
  {
    hide Good; hide Written;
    assert ([item] + items)[1..] == items;
  }

  /** So the law above is about every command line. */
  lemma {:induction false} EveryLineIsWritten(optstring: string, args: seq<string>) returns (items: seq<Item>, end: End)
    ensures GoodEnd(optstring, end) && (forall i :: 0 <= i < |items| ==> Good(optstring, items[i]))
    ensures Line(items, end) == args
    decreases |args|
  {
    if args == [] {
      items, end := [], Stop;
    } else if args[0] == "--" {
      items, end := [], Dashes(args[1..]);
    } else if NonOption(args[0]) {
      items, end := EveryLineIsWritten(optstring, args[1..]);
      OneMoreItem(optstring, Other(args[0]), items, end);
      items := [Other(args[0])] + items;
    } else {
      var k := FlagsOf(optstring, args[0][1..]);
      var item, n := FirstItem(optstring, args, k);
      if n == 0 {
        items, end := [], Lacking(args[0][1..][..k], args[0][1..][k]);
      } else {
        items, end := EveryLineIsWritten(optstring, args[n..]);
        OneMoreItem(optstring, item, items, end);
        assert args == args[..n] + args[n..];
        items := [item] + items;
      }
    }
  }

  /** What the first element, of `k` flags and more, was written from, with its argument; if it
      is the last and lacks that, `n` is 0. */
  lemma FirstItem(optstring: string, args: seq<string>, k: nat) returns (item: Item, n: nat)
    requires args != [] && !NonOption(args[0]) && args[0] != "--" && k <= |args[0][1..]|
    requires var s := args[0][1..];
             Flags(optstring, s[..k]) && (k < |s| ==> Takes(KindOf(optstring, s[k])))
    ensures n > 0 ==> n <= |args| && Good(optstring, item) && Written(item) == args[..n]
    ensures n == 0 ==> var s := args[0][1..];
              && k + 1 == |s| && args == EndWritten(Lacking(s[..k], s[k])) && GoodEnd(optstring, Lacking(s[..k], s[k]))
  {
    hide KindOf;
    var s := args[0][1..];
    assert args[0] == "-" + s;
    assert args[..1] == [args[0]];
    if k == |s| {
      assert s[..k] == s;
      item, n := Group(s, NoArg), 1;
    } else {
      var c, arg := s[k], s[k + 1..];
      assert s == s[..k] + ([c] + arg);
      if arg != "" {
        item, n := Group(s[..k], Behind(c, arg)), 1;
      } else {
        assert [c] + arg == [c];
        if KindOf(optstring, c) == Optional {
          item, n := Group(s[..k], Bare(c)), 1;
        } else if |args| == 1 {
          item, n := Other(""), 0;
        } else {
          item, n := Group(s[..k], Next(c, args[1])), 2;
        }
      }
    }
  }
}
