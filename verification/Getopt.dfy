/** The resumable scanner of nsd/getopt.c, which permutes argv as it goes. */
module Getopt {
  import opened Common
  import opened GetoptSpec

  ghost function Swapped(s: seq<string>, p: nat, q: nat, len: nat): (r: seq<string>)
    requires p + len <= q && q + len <= |s|
    ensures |r| == |s|
  {
    s[..p] + s[q..q + len] + s[p + len..q] + s[p..p + len] + s[q + len..]
  }

  /** Swap the `len` elements at `p` with those at `q`. */
  method SwapBlocks(a: array<string>, p: nat, q: nat, len: nat)
    requires p + len <= q && q + len <= a.Length
    modifies a
    ensures a[..] == Swapped(old(a[..]), p, q, len)
  {
    var i := 0;
    while i < len
      invariant 0 <= i <= len
      invariant forall k :: p <= k < p + i ==> a[k] == old(a[k + (q - p)])
      invariant forall k :: q <= k < q + i ==> a[k] == old(a[k - (q - p)])
      invariant forall k :: 0 <= k < a.Length && !(p <= k < p + i) && !(q <= k < q + i) ==> a[k] == old(a[k])
    {
      a[p + i], a[q + i] := a[q + i], a[p + i];
      i := i + 1;
    }
    Blocks(old(a[..]), a[..], p, q, len);
  }

  lemma Blocks(s: seq<string>, t: seq<string>, p: nat, q: nat, len: nat)
    requires p + len <= q && q + len <= |s| == |t|
    requires forall k :: p <= k < p + len ==> t[k] == s[k + (q - p)]
    requires forall k :: q <= k < q + len ==> t[k] == s[k - (q - p)]
    requires forall k :: 0 <= k < |s| && !(p <= k < p + len) && !(q <= k < q + len) ==> t[k] == s[k]
    ensures t == Swapped(s, p, q, len)
  {
    assert t[..p] == s[..p];
    assert t[p..p + len] == s[q..q + len];
    assert t[p + len..q] == s[p + len..q];
    assert t[q..q + len] == s[p..p + len];
    assert t[q + len..] == s[q + len..];
  }

  /** The segments [bottom, middle) and [middle, top) in the other order. */
  ghost function Rotated(s: seq<string>, bottom: nat, middle: nat, top: nat): (r: seq<string>)
    requires bottom <= middle <= top <= |s|
    ensures |r| == |s|
  {
    s[..bottom] + s[middle..top] + s[bottom..middle] + s[top..]
  }

  ghost function RotatedFrom(k: nat, bottom: nat, middle: nat, top: nat): (r: int)
    requires bottom <= middle <= top
  {
    if k < bottom || k >= top then k
    else if k < bottom + (top - middle) then k + (middle - bottom) else k - (top - middle)
  }

  lemma RotatedAt(s: seq<string>, bottom: nat, middle: nat, top: nat, k: nat)
    requires bottom <= middle <= top <= |s| && k < |s|
    ensures var i := RotatedFrom(k, bottom, middle, top); 0 <= i < |s| && Rotated(s, bottom, middle, top)[k] == s[i]
  {
  }

  ghost function SwappedFrom(k: nat, p: nat, q: nat, len: nat): int {
    if p <= k < p + len then k + (q - p) else if q <= k < q + len then k - (q - p) else k
  }

  lemma SwappedAt(s: seq<string>, p: nat, q: nat, len: nat, k: nat)
    requires p + len <= q && q + len <= |s| && k < |s|
    ensures var i := SwappedFrom(k, p, q, len); 0 <= i < |s| && Swapped(s, p, q, len)[k] == s[i]
  {
  }

  lemma SwapTop(s: seq<string>, bottom: nat, middle: nat, top: nat)
    requires bottom <= middle <= top <= |s| && top - middle > middle - bottom
    ensures var len := middle - bottom;
            Rotated(Swapped(s, bottom, top - len, len), bottom, middle, top - len) == Rotated(s, bottom, middle, top)
  {
    hide Swapped; hide Rotated;
    var len := middle - bottom;
    var t := Swapped(s, bottom, top - len, len);
    forall k | 0 <= k < |s| ensures Rotated(t, bottom, middle, top - len)[k] == Rotated(s, bottom, middle, top)[k] {
      RotatedAt(t, bottom, middle, top - len, k);
      SwappedAt(s, bottom, top - len, len, RotatedFrom(k, bottom, middle, top - len));
      RotatedAt(s, bottom, middle, top, k);
    }
  }

  lemma SwapBottom(s: seq<string>, bottom: nat, middle: nat, top: nat)
    requires bottom <= middle <= top <= |s| && top - middle <= middle - bottom
    ensures var len := top - middle;
            Rotated(Swapped(s, bottom, middle, len), bottom + len, middle, top) == Rotated(s, bottom, middle, top)
  {
    hide Swapped; hide Rotated;
    var len := top - middle;
    var t := Swapped(s, bottom, middle, len);
    forall k | 0 <= k < |s| ensures Rotated(t, bottom + len, middle, top)[k] == Rotated(s, bottom, middle, top)[k] {
      RotatedAt(t, bottom + len, middle, top, k);
      SwappedAt(s, bottom, middle, len, RotatedFrom(k, bottom + len, middle, top));
      RotatedAt(s, bottom, middle, top, k);
    }
  }

  lemma RotatedNothing(s: seq<string>, bottom: nat, middle: nat, top: nat)
    requires bottom <= middle <= top <= |s| && (bottom == middle || middle == top)
    ensures Rotated(s, bottom, middle, top) == s
  {
  }

  /** exchange, on the array: the shorter segment goes to its place by swapping with the far
      end of the longer one, of which the rest is then exchanged in turn. */
  method Rotate(a: array<string>, bottom0: nat, middle: nat, top0: nat)
    requires bottom0 <= middle <= top0 <= a.Length
    modifies a
    ensures a[..] == old(Rotated(a[..], bottom0, middle, top0))
  {
    hide Rotated; hide Swapped;
    var bottom: nat, top: nat := bottom0, top0;
    while top > middle && middle > bottom
      invariant bottom <= middle <= top <= a.Length
      invariant Rotated(a[..], bottom, middle, top) == old(Rotated(a[..], bottom0, middle, top0))
      decreases top - bottom
    {
      ghost var s := a[..];
      if top - middle > middle - bottom {
        var len := middle - bottom;
        SwapBlocks(a, bottom, top - len, len);
        SwapTop(s, bottom, middle, top);
        top := top - len;
      } else {
        var len := top - middle;
        SwapBlocks(a, bottom, middle, len);
        SwapBottom(s, bottom, middle, top);
        bottom := bottom + len;
      }
    }
    RotatedNothing(a[..], bottom, middle, top);
  }

  /** Where the options and the other arguments read so far are in argv: the others at
      [first, last), the options around them. */
  ghost predicate InOrder(s: seq<string>, first: nat, last: nat, optind: nat) {
    1 <= first <= last <= optind <= |s|
  }

  ghost function OptionsIn(s: seq<string>, first: nat, last: nat, optind: nat): seq<string>
    requires InOrder(s, first, last, optind)
  {
    s[1..first] + s[last..optind]
  }

  ghost function OthersIn(s: seq<string>, first: nat, last: nat): seq<string>
    requires first <= last <= |s|
  {
    s[first..last]
  }

  /** What has been read and what reading on from there gives. */
  ghost function Whole(optstring: string, s: seq<string>, first: nat, last: nat, optind: nat, next: string): Reading
    requires InOrder(s, first, last, optind) && (next != "" ==> optind < |s|)
  {
    var r := ReadOn(optstring, next, s[optind..]);
    Reading(r.events, OptionsIn(s, first, last, optind) + r.options, OthersIn(s, first, last) + r.others)
  }

  // ----- the steps of a call, on values -----

  lemma SettleMoves(s: seq<string>, first: nat, last: nat, optind: nat)
    requires InOrder(s, first, last, optind)
    ensures var t, f := Rotated(s, first, last, optind), first + (optind - last);
            && OptionsIn(t, f, optind, optind) == OptionsIn(s, first, last, optind)
            && OthersIn(t, f, optind) == OthersIn(s, first, last)
            && t[optind..] == s[optind..] && t[0] == s[0]
  {
    var t, f := Rotated(s, first, last, optind), first + (optind - last);
    assert t[1..f] == s[1..first] + s[last..optind];
    assert t[f..optind] == s[first..last];
  }

  lemma SettleNone(s: seq<string>, first: nat, optind: nat)
    requires InOrder(s, first, first, optind)
    ensures OptionsIn(s, optind, optind, optind) == OptionsIn(s, first, first, optind)
    ensures OthersIn(s, optind, optind) == OthersIn(s, first, first) == []
  {
    assert s[1..optind] == s[1..first] + s[first..optind];
  }

  lemma SkipOne(optstring: string, s: seq<string>, first: nat, optind: nat)
    requires InOrder(s, first, optind, optind) && optind < |s| && NonOption(s[optind])
    ensures Whole(optstring, s, first, optind, optind, "") == Whole(optstring, s, first, optind + 1, optind + 1, "")
  {
    var tail := s[optind..];
    assert tail[0] == s[optind] && tail[1..] == s[optind + 1..];
    assert s[first..optind + 1] == s[first..optind] + [s[optind]];
    assert s[optind..optind] == s[optind + 1..optind + 1];
    var r := Read(optstring, tail[1..]);
    assert s[first..optind] + ([s[optind]] + r.others) == s[first..optind + 1] + r.others;
    hide Cluster;
  }

  /** At `--`: it joins the options, and all that follows the others. */
  lemma DashDash(optstring: string, s: seq<string>, first: nat, optind: nat)
    requires InOrder(s, first, optind, optind) && optind < |s| && s[optind] == "--"
    ensures var w := Whole(optstring, s, first, optind, optind, "");
            && w.events == [] && w.options == s[1..first] + ["--"] && w.others == s[first..optind] + s[optind + 1..]
  {
    var tail := s[optind..];
    assert tail[0] == "--" && tail[1..] == s[optind + 1..];
    assert s[optind..optind] == [] && s[1..first] + [] == s[1..first];
  }

  lemma DashDashMoved(s: seq<string>, first: nat, optind: nat)
    requires InOrder(s, first, optind, optind) && optind < |s| && s[optind] == "--"
    ensures var t := Rotated(s, first, optind, optind + 1);
            t == [s[0]] + (s[1..first] + ["--"]) + (s[first..optind] + s[optind + 1..])
  {
    assert s[optind..optind + 1] == ["--"];
    assert s[..first] == [s[0]] + s[1..first];
  }

  lemma AtEnd(optstring: string, s: seq<string>, first: nat)
    requires InOrder(s, first, |s|, |s|)
    ensures var w := Whole(optstring, s, first, |s|, |s|, "");
            w.events == [] && w.options == s[1..first] && w.others == s[first..] && s == [s[0]] + w.options + w.others
  {
    assert s[|s|..] == [];
    assert s[first..|s|] == s[first..];
  }

  lemma StartElement(optstring: string, s: seq<string>, first: nat, last: nat, optind: nat)
    requires InOrder(s, first, last, optind) && optind < |s| && !NonOption(s[optind]) && s[optind] != "--"
    ensures Whole(optstring, s, first, last, optind, "") == Whole(optstring, s, first, last, optind, s[optind][1..])
  {
    assert s[optind..][0] == s[optind];
  }

  /** One more option, of `n` elements. */
  lemma TakeElements(s: seq<string>, first: nat, last: nat, optind: nat, n: nat)
    requires InOrder(s, first, last, optind) && optind + n <= |s|
    ensures OptionsIn(s, first, last, optind + n) == OptionsIn(s, first, last, optind) + s[optind..][..n]
    ensures s[optind..][n..] == s[optind + n..]
  {
    assert s[last..optind + n] == s[last..optind] + s[optind..][..n];
  }

  lemma Assoc(a: seq<string>, b: seq<string>, c: seq<string>)
    ensures a + (b + c) == (a + b) + c
  {
  }

  /** An option that ends its element, and takes `n` more. */
  lemma DecodeEnds(optstring: string, s: seq<string>, first: nat, last: nat, optind: nat, next: string, e: Event,
                   n: nat)
    requires InOrder(s, first, last, optind) && optind < |s| && next != "" && optind + 1 + n <= |s|
    requires Cluster(optstring, next, s[optind..][1..]) == ([e], n)
    ensures var w := Whole(optstring, s, first, last, optind, next);
            var v := Whole(optstring, s, first, last, optind + 1 + n, "");
            v.options == w.options && v.others == w.others && w.events == [e] + v.events
  {
    hide Cluster;
    var args := s[optind..];
    TakeElements(s, first, last, optind, 1 + n);
    Assoc(OptionsIn(s, first, last, optind), args[..1 + n], Read(optstring, args[1 + n..]).options);
  }

  function Simple(optstring: string, c: char): Event {
    if KindOf(optstring, c) == Invalid then Event('?', None, Some(c)) else Event(c, None, None)
  }

  lemma ClusterSteps(optstring: string, next: string, args: seq<string>)
    requires next != "" && KindOf(optstring, next[0]) in {Invalid, Plain}
    ensures var f := Cluster(optstring, next[1..], args);
            && Cluster(optstring, next, args) == ([Simple(optstring, next[0])] + f.0, f.1)
            && (next[1..] == "" ==> Cluster(optstring, next, args) == ([Simple(optstring, next[0])], 0))
  {
    var e := Simple(optstring, next[0]);
    assert Cluster(optstring, next, args) ==
           ([e] + Cluster(optstring, next[1..], args).0, Cluster(optstring, next[1..], args).1);
    assert [e] + Cluster(optstring, "", args).0 == [e];
  }

  /** An option that leaves the rest of its element to be read. */
  lemma DecodeStays(optstring: string, s: seq<string>, first: nat, last: nat, optind: nat, next: string)
    requires InOrder(s, first, last, optind) && optind < |s| && next != ""
    requires KindOf(optstring, next[0]) in {Invalid, Plain}
    ensures var w := Whole(optstring, s, first, last, optind, next);
            var o := if next[1..] == "" then optind + 1 else optind;
            var v := Whole(optstring, s, first, last, o, next[1..]);
            v.options == w.options && v.others == w.others && w.events == [Simple(optstring, next[0])] + v.events
  {
    var args := s[optind..];
    ClusterSteps(optstring, next, args[1..]);
    hide Cluster; hide KindOf; hide Simple;
    if next[1..] == "" {
      DecodeEnds(optstring, s, first, last, optind, next, Simple(optstring, next[0]), 0);
    } else {
      var f := Cluster(optstring, next[1..], args[1..]);
      var r := Read(optstring, args[1 + f.1..]);
      assert ([Simple(optstring, next[0])] + f.0) + r.events == [Simple(optstring, next[0])] + (f.0 + r.events);
    }
  }

  // ----- the scanner -----

  /** getopt's variables that last from call to call. */
  class Scanner {
    const argv: array<string>
    const optstring: string
    var optind: nat
    var firstNonopt: nat
    var lastNonopt: nat
    var nextchar: string       // "" is also NULL

    ghost predicate Valid()
      reads this, argv
    {
      && InOrder(argv[..], firstNonopt, lastNonopt, optind)
      && (nextchar != "" ==> optind < argv.Length)
    }

    /** What has been returned and set apart so far is in argv; this is what is still to be
        returned, and both sides as they will be. */
    ghost function View(): Reading
      requires Valid()
      reads this, argv
    {
      Whole(optstring, argv[..], firstNonopt, lastNonopt, optind, nextchar)
    }

    /** _getopt_initialize, when permuting. */
    constructor (argv: array<string>, optstring: string)
      requires argv.Length >= 1
      ensures this.argv == argv && this.optstring == optstring && Valid()
      ensures View() == Read(optstring, argv[1..])
    {
      this.argv, this.optstring := argv, optstring;
      optind, firstNonopt, lastNonopt, nextchar := 1, 1, 1, "";
      new;
      assert argv[..][1..] == argv[1..];
      assert [] + Read(optstring, argv[1..]).options == Read(optstring, argv[1..]).options;
    }

    /** exchange. */
    method Exchange()
      requires InOrder(argv[..], firstNonopt, lastNonopt, optind)
      modifies argv, this`firstNonopt, this`lastNonopt
      ensures argv[..] == Rotated(old(argv[..]), old(firstNonopt), old(lastNonopt), optind)
      ensures firstNonopt == old(firstNonopt) + (optind - old(lastNonopt)) && lastNonopt == optind
    {
      Rotate(argv, firstNonopt, lastNonopt, optind);
      firstNonopt := firstNonopt + (optind - lastNonopt);
      lastNonopt := optind;
    }

    /** Options that have followed other arguments are moved before them; then further
        arguments are skipped. */
    method Settle()
      requires Valid() && nextchar == ""
      modifies argv, this`firstNonopt, this`lastNonopt, this`optind
      ensures Valid() && View() == old(View()) && lastNonopt == optind && argv[0] == old(argv[0])
      ensures optind < argv.Length ==> !NonOption(argv[optind])
    {
      hide OptionsIn; hide OthersIn; hide Rotated; hide Read;
      ghost var s := argv[..];
      SettleMoves(s, firstNonopt, lastNonopt, optind);
      if firstNonopt == lastNonopt { SettleNone(s, firstNonopt, optind); }
      if firstNonopt != lastNonopt && lastNonopt != optind {
        Exchange();
      } else if lastNonopt != optind {
        firstNonopt := optind;
      }
      SkipNonOptions();
    }

    method SkipNonOptions()
      requires InOrder(argv[..], firstNonopt, optind, optind) && nextchar == ""
      modifies this`optind, this`lastNonopt
      ensures Valid() && lastNonopt == optind
      ensures View() == old(Whole(optstring, argv[..], firstNonopt, optind, optind, ""))
      ensures optind < argv.Length ==> !NonOption(argv[optind])
    {
      hide Whole;
      while optind < argv.Length && NonOption(argv[optind])
        invariant InOrder(argv[..], firstNonopt, optind, optind) && nextchar == ""
        invariant Whole(optstring, argv[..], firstNonopt, optind, optind, "")
               == old(Whole(optstring, argv[..], firstNonopt, optind, optind, ""))
      {
        SkipOne(optstring, argv[..], firstNonopt, optind);
        optind := optind + 1;
      }
      lastNonopt := optind;
    }

    /** `--`: skip it like an option, then everything else like other arguments. */
    method EndOptions()
      requires Valid() && lastNonopt == optind < argv.Length && argv[optind] == "--" && nextchar == ""
      modifies argv, this`firstNonopt, this`lastNonopt, this`optind
      ensures InOrder(argv[..], firstNonopt, lastNonopt, optind) && optind == lastNonopt == argv.Length
      ensures var w := old(View());
              && argv[..] == [old(argv[0])] + w.options + w.others && w.events == [] && firstNonopt == 1 + |w.options|
    {
      ghost var s := argv[..];
      DashDash(optstring, s, firstNonopt, optind);
      DashDashMoved(s, firstNonopt, optind);
      if firstNonopt == lastNonopt { RotatedNothing(s, firstNonopt, optind, optind + 1); }
      hide Whole; hide Rotated; hide Read;
      optind := optind + 1;
      if firstNonopt != lastNonopt && lastNonopt != optind {
        Exchange();
      } else if firstNonopt == lastNonopt {
        firstNonopt := optind;
      }
      lastNonopt := argv.Length;
      optind := argv.Length;
    }

    /** Advance to the next element of options, if there is one. */
    method NextElement() returns (eof: bool)
      requires Valid() && nextchar == ""
      modifies argv, this
      ensures argv[0] == old(argv[0])
      ensures eof ==>
                var w := old(View());
                && argv[..] == [argv[0]] + w.options + w.others && optind == 1 + |w.options| && w.events == []
      ensures !eof ==> Valid() && nextchar != "" && View() == old(View())
    {
      hide Whole; hide Read;
      Settle();
      if optind != argv.Length && argv[optind] == "--" {
        EndOptions();
      } else if optind == argv.Length {
        AtEnd(optstring, argv[..], firstNonopt);
      }
      if optind == argv.Length {
        if firstNonopt != lastNonopt {
          optind := firstNonopt;
        }
        return true;
      }
      StartElement(optstring, argv[..], firstNonopt, lastNonopt, optind);
      nextchar := argv[optind][1..];
      return false;
    }

    /** Handle the next option character. */
    method Decode() returns (e: Event)
      requires Valid() && nextchar != ""
      modifies this`optind, this`nextchar
      ensures Valid()
      ensures var w, v := old(View()), View();
              w.events == [e] + v.events && w.options == v.options && w.others == v.others
    {
      hide Whole; hide Read;
      ghost var s, next, at := argv[..], nextchar, optind;
      var c := nextchar[0];
      var kind := KindOf(optstring, c);
      nextchar := nextchar[1..];
      if nextchar == "" {
        optind := optind + 1;
      }
      if kind == Invalid || kind == Plain {
        DecodeStays(optstring, s, firstNonopt, lastNonopt, at, next);
        return if kind == Invalid then Event('?', None, Some(c)) else Event(c, None, None);
      }
      if nextchar != "" {
        e := Event(c, Some(nextchar), None);
        optind := optind + 1;
      } else if kind == Optional {
        e := Event(c, None, None);
      } else if optind == argv.Length {
        e := Event(Missing(optstring), None, Some(c));
      } else {
        e := Event(c, Some(argv[optind]), None);
        optind := optind + 1;
      }
      nextchar := "";
      DecodeEnds(optstring, s, firstNonopt, lastNonopt, at, next, e, optind - at - 1);
    }

    /** One call of getopt: the next option, or None for EOF. */
    method Getopt() returns (e: Option<Event>)
      requires Valid()
      modifies argv, this
      ensures argv[0] == old(argv[0])
      ensures e.Some? ==>
                && Valid()
                && var w, v := old(View()), View();
                   w.events == [e.value] + v.events && w.options == v.options && w.others == v.others
      ensures e.None? ==>
                var w := old(View());
                && argv[..] == [argv[0]] + w.options + w.others && optind == 1 + |w.options| && w.events == []
    {
      if nextchar == "" {
        var eof := NextElement();
        if eof {
          return None;
        }
      }
      var event := Decode();
      return Some(event);
    }
  }

  /** Calls up to EOF: they return what one reading of the command line gives, and leave argv
      with the options, their arguments and the first `--` in front and the other arguments
      from optind on, both in the order they were given. */
  method GetAll(argv: array<string>, optstring: string) returns (events: seq<Event>, optind: nat)
    requires argv.Length >= 1
    modifies argv
    ensures var r := Read(optstring, old(argv[1..]));
            && events == r.events
            && optind == 1 + |r.options|
            && argv[..] == [old(argv[0])] + r.options + r.others
  {
    var scanner := new Scanner(argv, optstring);
    ghost var r := scanner.View();
    events := [];
    NoneReturned(r.events);
    while true
      invariant scanner.argv == argv && scanner.Valid() && argv[0] == old(argv[0])
      invariant events + scanner.View().events == r.events
      invariant scanner.View().options == r.options && scanner.View().others == r.others
      decreases |r.events| - |events|
    {
      ghost var was := scanner.View().events;
      var e := scanner.Getopt();
      if e.None? {
        optind := scanner.optind;
        NoneReturned(events);
        return;
      }
      OneReturned(events, e.value, was, scanner.View().events);
      hide *;
      events := events + [e.value];
    }
  }

  lemma NoneReturned(a: seq<Event>)
    ensures [] + a == a == a + []
  {
  }

  lemma OneReturned(a: seq<Event>, e: Event, was: seq<Event>, b: seq<Event>)
    requires was == [e] + b
    ensures (a + [e]) + b == a + was
  {
  }
}
