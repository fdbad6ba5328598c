/** How an ADP page without tags of its own (nsd/adpparse.c) divides into text and scripts. */
module AdpSpec {
  import opened Common

  /** Text, <% script %>, or <%= script %>, whose result is appended. */
  datatype Kind = Text | Code | Echo

  /** What lies at [lo, hi) of the page. */
  datatype Block = Block(kind: Kind, lo: nat, hi: nat)

  predicate Opens(page: string, p: int) {
    0 <= p < |page| - 1 && page[p] == '<' && page[p + 1] == '%'
  }

  predicate Closes(page: string, p: int) {
    0 <= p < |page| - 1 && page[p] == '%' && page[p + 1] == '>'
  }

  /** strchr: the first `c` at or after `from`. */
  function FindChar(page: string, c: char, from: nat): (r: Option<nat>)
    ensures r.Some? ==> from <= r.value < |page| && page[r.value] == c
    ensures forall i :: from <= i < (if r.Some? then r.value else |page|) ==> page[i] != c
    decreases |page| - from
  {
    if from >= |page| then None
    else if page[from] == c then Some(from) else FindChar(page, c, from + 1)
  }

  /** strstr: the first "%>" at or after `from`. */
  function FindClose(page: string, from: nat): (r: Option<nat>)
    ensures r.Some? ==> from <= r.value && Closes(page, r.value)
    ensures forall i :: from <= i < (if r.Some? then r.value else |page|) ==> !Closes(page, i)
    decreases |page| - from
  {
    if from >= |page| then None
    else if Closes(page, from) then Some(from) else FindClose(page, from + 1)
  }

  /** strstr: the first "<%" at or after `from`. */
  function FindOpen(page: string, from: nat): (r: Option<nat>)
    ensures r.Some? ==> from <= r.value && Opens(page, r.value)
    ensures forall i :: from <= i < (if r.Some? then r.value else |page|) ==> !Opens(page, i)
    decreases |page| - from
  {
    if from >= |page| then None
    else if Opens(page, from) then Some(from) else FindOpen(page, from + 1)
  }

  /** How many times "<%" begins in [from, to). */
  function CountOpens(page: string, from: nat, to: nat): nat
    decreases to - from
  {
    if from >= to then 0 else (if Opens(page, from) then 1 else 0) + CountOpens(page, from + 1, to)
  }

  function CountCloses(page: string, from: nat, to: nat): nat
    decreases to - from
  {
    if from >= to then 0 else (if Closes(page, from) then 1 else 0) + CountCloses(page, from + 1, to)
  }

  /** The "%>" that ends a script begun at `s`: the first one, passed over once for each "<%"
      before it. */
  function EndOf(page: string, s: nat): (r: Option<nat>)
    ensures r.Some? ==> s + 2 <= r.value && Closes(page, r.value)
  {
    match FindClose(page, s + 2)
    case None => None
    case Some(e) => Pass(page, e, CountOpens(page, s + 2, e))
  }

  /** `n` further closings from the one at `e`. */
  function Pass(page: string, e: nat, n: nat): (r: Option<nat>)
    requires Closes(page, e)
    ensures r.Some? ==> e <= r.value && Closes(page, r.value)
    decreases n
  {
    if n == 0 then Some(e)
    else match FindClose(page, e + 2)
      case None => None
      case Some(f) => Pass(page, f, n - 1)
  }

  /** A script may begin here; "<%>" does not begin one. */
  predicate Begins(page: string, s: nat) {
    s + 2 < |page| && Opens(page, s) && page[s + 2] != '>'
  }

  function ScriptAt(page: string, s: nat, e: nat): (r: Block)
    requires Begins(page, s) && s + 2 <= e && Closes(page, e)
    ensures s + 2 <= r.lo <= r.hi == e && r.kind != Text
  {
    if page[s + 2] == '=' then Block(Echo, s + 3, e) else Block(Code, s + 2, e)
  }

  /** The next '<' that a '>' follows somewhere. */
  function Tag(page: string, at: nat): (r: Option<nat>)
    ensures r.Some? ==> at <= r.value < |page|
  {
    match FindChar(page, '<', at)
    case None => None
    case Some(s) => if FindChar(page, '>', s).None? then None else Some(s)
  }

  /** The blocks up to and with the script begun at `s`, and where to go on. Without an end
      the opening is text. */
  function Cut(page: string, text: nat, s: nat): (r: (seq<Block>, nat))
    requires text <= s && Begins(page, s)
    ensures s < r.1 <= |page|
  {
    match EndOf(page, s)
    case None => ([Block(Text, text, s + 2)], s + 2)
    case Some(e) => ([Block(Text, text, s), ScriptAt(page, s, e)], e + 2)
  }

  /** All blocks from `text` on, empty ones too; tags are looked for from `at`. */
  function Blocks(page: string, text: nat, at: nat): (r: seq<Block>)
    requires text <= at <= |page|
    decreases |page| - at
  {
    match Tag(page, at)
    case None => [Block(Text, text, |page|)]
    case Some(s) =>
      if !Begins(page, s) then Blocks(page, text, s + 1)
      else Cut(page, text, s).0 + Blocks(page, Cut(page, text, s).1, Cut(page, text, s).1)
  }

  // ----- the compiled form -----

  const APPEND := "ns_adp_append "

  predicate InPage(page: string, b: Block) {
    b.lo <= b.hi <= |page|
  }

  /** What is compiled for a block: nothing if it is empty. */
  function Compiled(page: string, b: Block): string
    requires InPage(page, b)
  {
    if b.lo == b.hi then "" else (if b.kind == Echo then APPEND else "") + page[b.lo..b.hi]
  }

  function Newlines(s: string): nat {
    if s == "" then 0 else Newlines(s[..|s| - 1]) + if s[|s| - 1] == '\n' then 1 else 0
  }

  /** Text of all blocks, a length for each (negative for a script) and the line each begins
      on, counted from 0. */
  datatype Compilation = Compilation(text: string, lens: seq<int>, lines: seq<nat>, line: nat)

  const NOTHING := Compilation("", [], [], 0)

  function Add(page: string, c: Compilation, b: Block): Compilation
    requires InPage(page, b)
  {
    if b.lo == b.hi then c
    else
      var s := Compiled(page, b);
      Compilation(c.text + s, c.lens + [if b.kind == Text then |s| else -|s|], c.lines + [c.line],
                  c.line + Newlines(page[b.lo..b.hi]))
  }

  function AddAll(page: string, c: Compilation, blocks: seq<Block>): Compilation
    requires forall i :: 0 <= i < |blocks| ==> InPage(page, blocks[i])
  {
    if blocks == [] then c
    else Add(page, AddAll(page, c, blocks[..|blocks| - 1]), blocks[|blocks| - 1])
  }
}
