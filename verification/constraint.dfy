/**
 * flow/python/Constraint.py: reading a `.sym` symmetry file into a
 * dictionary, deciding whether a circuit is a primary cell (all of its nodes
 * are devices), and the records of the `.initObj` file written for a primary
 * cell.  The files themselves are sequences of lines here.
 */
module Constraint {
  import opened Wrappers
  import opened MagicalDb

  // ---------------------------------------------------------------------------
  // str.split()
  // ---------------------------------------------------------------------------

  /** The characters Python's `str.split()` without arguments splits at. */
  predicate IsPySpace(c: char)
  {
    ('\U{9}' <= c <= '\U{D}') || ('\U{1C}' <= c <= '\U{20}') || c == '\U{85}' || c == '\U{A0}' ||
    c == '\U{1680}' || ('\U{2000}' <= c <= '\U{200A}') || c == '\U{2028}' || c == '\U{2029}' ||
    c == '\U{202F}' || c == '\U{205F}' || c == '\U{3000}'
  }

  /** No character of `s` is a space. */
  predicate NoSpace(s: string)
  {
    forall i :: 0 <= i < |s| ==> !IsPySpace(s[i])
  }

  /** `s` with every space removed. */
  function NonSpace(s: string): string
  {
    if s == [] then [] else if IsPySpace(s[0]) then NonSpace(s[1..]) else [s[0]] + NonSpace(s[1..])
  }

  /** The words one after the other. */
  function Concat(ws: seq<string>): string
  {
    if ws == [] then [] else ws[0] + Concat(ws[1..])
  }

  /** The longest prefix of `s` without a space. */
  function FirstWord(s: string): (w: string)
    ensures w <= s && NoSpace(w)
    ensures |w| < |s| ==> IsPySpace(s[|w|])
  {
    if s == [] || IsPySpace(s[0]) then [] else [s[0]] + FirstWord(s[1..])
  }

  /** `s.split()`: the maximal runs of non-space characters, in order. */
  function Words(s: string): (ws: seq<string>)
    ensures forall i :: 0 <= i < |ws| ==> ws[i] != [] && NoSpace(ws[i])
    ensures Concat(ws) == NonSpace(s)
    decreases |s|
  {
    if s == [] then []
    else if IsPySpace(s[0]) then Words(s[1..])
    else
      var w := FirstWord(s);
      NonSpaceOfWord(w, s[|w|..]);
      assert s == w + s[|w|..];
      [w] + Words(s[|w|..])
  }

  /** Removing the spaces of a word followed by more text keeps the word. */
  lemma {:induction false} NonSpaceOfWord(w: string, rest: string)
    requires NoSpace(w)
    ensures NonSpace(w + rest) == w + NonSpace(rest)
  {
    if w != [] {
      var s := w + rest;
      assert s[0] == w[0] && !IsPySpace(w[0]);
      assert s[1..] == w[1..] + rest;
      assert NonSpace(s) == [w[0]] + NonSpace(s[1..]);
      NonSpaceOfWord(w[1..], rest);
      assert w == [w[0]] + w[1..];
    } else {
      assert w + rest == rest;
    }
  }

  /** A space ends the first word. */
  lemma {:induction false} FirstWordStopsAtSpace(x: string, c: char, y: string)
    requires IsPySpace(c)
    ensures FirstWord(x + [c] + y) == FirstWord(x)
  {
    if x != [] && !IsPySpace(x[0]) {
      assert (x + [c] + y)[1..] == x[1..] + [c] + y;
      FirstWordStopsAtSpace(x[1..], c, y);
    }
  }

  /** Splitting text joined at a space splits the two sides separately. */
  lemma {:induction false} WordsOfJoin(x: string, c: char, y: string)
    requires IsPySpace(c)
    ensures Words(x + [c] + y) == Words(x) + Words(y)
    decreases |x|
  {
    var s := x + [c] + y;
    if x == [] {
      assert s[1..] == y;
    } else if IsPySpace(x[0]) {
      assert s[1..] == x[1..] + [c] + y;
      WordsOfJoin(x[1..], c, y);
    } else {
      var w := FirstWord(x);
      FirstWordStopsAtSpace(x, c, y);
      assert s[|w|..] == x[|w|..] + [c] + y;
      WordsOfJoin(x[|w|..], c, y);
    }
  }

  /** A word on its own splits into itself. */
  lemma {:induction false} WordsOfWord(w: string)
    requires w != [] && NoSpace(w)
    ensures Words(w) == [w]
  {
    if |w| > 1 {
      WordsOfWord(w[1..]);
    }
    assert FirstWord(w) == w by {
      FirstWordOfWord(w);
    }
    assert w[|w|..] == [];
  }

  lemma {:induction false} FirstWordOfWord(w: string)
    requires NoSpace(w)
    ensures FirstWord(w) == w
  {
    if w != [] {
      FirstWordOfWord(w[1..]);
    }
  }

  // ---------------------------------------------------------------------------
  // parseSym
  // ---------------------------------------------------------------------------

  /** The tokens of each line of a file, as `line.split()` gives them. */
  function SplitLines(lines: seq<string>): (toks: seq<seq<string>>)
    ensures |toks| == |lines|
    ensures forall i :: 0 <= i < |lines| ==> toks[i] == Words(lines[i])
  {
    seq(|lines|, i requires 0 <= i < |lines| => Words(lines[i]))
  }

  /** The tokens of a `.sym` line that pairs `key` with a second token. */
  predicate Defines(ws: seq<string>, key: string)
  {
    |ws| > 1 && ws[0] == key
  }

  /** One of the first `n` lines defines `key`. */
  ghost predicate DefinedIn(toks: seq<seq<string>>, n: nat, key: string)
    requires n <= |toks|
  {
    exists i :: 0 <= i < n && Defines(toks[i], key)
  }

  /** Line i is the last of the first n lines to define `key`, and gives it `value`. */
  ghost predicate LastDefinition(toks: seq<seq<string>>, n: nat, key: string, value: string)
    requires n <= |toks|
  {
    exists i :: 0 <= i < n && Defines(toks[i], key) && value == toks[i][1] &&
      forall j :: i < j < n ==> !Defines(toks[j], key)
  }

  /** One more line defines what the earlier lines defined, and what it defines itself. */
  lemma {:induction false} DefinedStep(toks: seq<seq<string>>, n: nat, key: string)
    requires n < |toks|
    ensures DefinedIn(toks, n + 1, key) <==> DefinedIn(toks, n, key) || Defines(toks[n], key)
  {
    if DefinedIn(toks, n + 1, key) && !Defines(toks[n], key) {
      var i :| 0 <= i < n + 1 && Defines(toks[i], key);
      assert i < n;
    }
  }

  /** A line defining `key` becomes its last definition. */
  lemma {:induction false} LastDefinitionNew(toks: seq<seq<string>>, n: nat, key: string)
    requires n < |toks| && Defines(toks[n], key)
    ensures LastDefinition(toks, n + 1, key, toks[n][1])
  {
  }

  /** A line not defining `key` leaves its last definition. */
  lemma {:induction false} LastDefinitionKept(toks: seq<seq<string>>, n: nat, key: string, value: string)
    requires n < |toks| && !Defines(toks[n], key) && LastDefinition(toks, n, key, value)
    ensures LastDefinition(toks, n + 1, key, value)
  {
    var i :| 0 <= i < n && Defines(toks[i], key) && value == toks[i][1] &&
      forall j :: i < j < n ==> !Defines(toks[j], key);
    assert forall j :: i < j < n + 1 ==> !Defines(toks[j], key);
  }

  /**
   * `parseSym`, on the lines of the `.sym` file: every line of at least two
   * tokens maps its first token to its second; further tokens are ignored,
   * and the last line for a key wins.
   */
  method ParseSym(lines: seq<string>) returns (symDict: map<string, string>)
    ensures forall k :: k in symDict <==> DefinedIn(SplitLines(lines), |lines|, k)
    ensures forall k :: k in symDict ==> LastDefinition(SplitLines(lines), |lines|, k, symDict[k])
  {
    ghost var toks := SplitLines(lines);
    symDict := map[];
    for n := 0 to |lines|
      invariant forall k :: k in symDict <==> DefinedIn(toks, n, k)
      invariant forall k :: k in symDict ==> LastDefinition(toks, n, k, symDict[k])
    {
      var cellNames := Words(lines[n]);
      assert cellNames == toks[n];
      ghost var before := symDict;
      if |cellNames| > 1 {
        symDict := symDict[cellNames[0] := cellNames[1]];
      }
      forall k
        ensures k in symDict <==> DefinedIn(toks, n + 1, k)
        ensures k in symDict ==> LastDefinition(toks, n + 1, k, symDict[k])
      {
        DefinedStep(toks, n, k);
        if Defines(toks[n], k) {
          LastDefinitionNew(toks, n, k);
        } else if k in before {
          LastDefinitionKept(toks, n, k, before[k]);
        }
      }
    }
  }

  /**
   * A line "key value" pairs the key with the value, and so does a line
   * "key value extra": tokens after the second do not matter.
   */
  lemma {:induction false} TokenLines(key: string, value: string, extra: string)
    requires key != [] && NoSpace(key) && value != [] && NoSpace(value) && extra != [] && NoSpace(extra)
    ensures Words(key + " " + value) == [key, value]
    ensures Words(key + " " + value + " " + extra) == [key, value, extra]
  {
    WordsOfWord(key);
    WordsOfWord(value);
    WordsOfWord(extra);
    WordsOfJoin(key, ' ', value);
    assert key + " " + value == key + [' '] + value;
    WordsOfJoin(key + " " + value, ' ', extra);
    assert key + " " + value + " " + extra == (key + " " + value) + [' '] + extra;
  }

  /** A line of a single token, with or without surrounding spaces, defines nothing. */
  lemma {:induction false} SingleTokenLine(key: string)
    requires key != [] && NoSpace(key)
    ensures Words(key) == [key] && Words(" " + key + " ") == [key]
    ensures !Defines(Words(key), key) && !Defines(Words(" " + key + " "), key)
  {
    WordsOfWord(key);
    WordsOfJoin([], ' ', key + " ");
    WordsOfJoin(key, ' ', []);
    assert " " + key + " " == [] + [' '] + (key + [' '] + []);
  }

  // ---------------------------------------------------------------------------
  // primaryCell
  // ---------------------------------------------------------------------------

  /** The circuit's nodes name circuits of the design. */
  predicate NodesInDesign(ckts: seq<Circuit>, ckt: Circuit)
  {
    forall n :: 0 <= n < |ckt.nodes| ==> ckt.nodes[n].graphIdx < |ckts|
  }

  /** The circuit's nodes name circuits of the design and pins of the circuit. */
  predicate NodesResolve(ckts: seq<Circuit>, ckt: Circuit)
  {
    NodesInDesign(ckts, ckt) &&
    forall n :: 0 <= n < |ckt.nodes| ==>
      forall p :: 0 <= p < |ckt.nodes[n].pinIdxs| ==> ckt.nodes[n].pinIdxs[p] < |ckt.pins|
  }

  /**
   * `primaryCell(cktIdx)`: whether the circuit of every node has a device
   * implementation type; the loop returns false at the first that has not.
   * `isImplTypeDevice` is a parameter.
   */
  method PrimaryCell(ckts: seq<Circuit>, cktIdx: nat, isDevice: ImplType -> bool) returns (primary: bool)
    requires cktIdx < |ckts| && NodesInDesign(ckts, ckts[cktIdx])
    ensures primary <==> forall n :: 0 <= n < |ckts[cktIdx].nodes| ==> isDevice(ckts[ckts[cktIdx].nodes[n].graphIdx].implType)
  {
    var ckt := ckts[cktIdx];
    for nodeIdx := 0 to |ckt.nodes|
      invariant forall n :: 0 <= n < nodeIdx ==> isDevice(ckts[ckt.nodes[n].graphIdx].implType)
    {
      var instNode := ckt.nodes[nodeIdx];
      var subckt := ckts[instNode.graphIdx];
      if !isDevice(subckt.implType) {
        return false;
      }
    }
    return true;
  }

  // ---------------------------------------------------------------------------
  // The message of the device check
  // ---------------------------------------------------------------------------

  /** The number of `%s` conversions in a format. */
  function Conversions(fmt: string): nat
    decreases |fmt|
  {
    if |fmt| >= 2 && fmt[0] == '%' && fmt[1] == 's' then 1 + Conversions(fmt[2..])
    else if fmt == [] then 0
    else Conversions(fmt[1..])
  }

  /**
   * `fmt % args` for a format whose only `%` characters start `%s`
   * conversions, `args` being the items of the operand (a single operand that
   * is not a tuple is one item).  Python raises `TypeError` when there are
   * fewer items than conversions ("not enough arguments") or more ("not all
   * arguments converted").
   */
  function Format(fmt: string, args: seq<string>): (r: Result<string, PyError>)
    ensures r.Ok? <==> |args| == Conversions(fmt)
    ensures r.Err? ==> r.error == TypeError
    decreases |fmt|
  {
    if |fmt| >= 2 && fmt[0] == '%' && fmt[1] == 's' then
      if args == [] then Err(TypeError)
      else match Format(fmt[2..], args[1..])
        case Ok(rest) => Ok(args[0] + rest)
        case Err(e) => Err(e)
    else if fmt == [] then
      if args == [] then Ok([]) else Err(TypeError)
    else match Format(fmt[1..], args)
      case Ok(rest) => Ok([fmt[0]] + rest)
      case Err(e) => Err(e)
  }

  /** Text without `%` is copied: it adds no conversion and is prepended to the formatted rest. */
  lemma {:induction false} FormatLiteral(lit: string, fmt: string, args: seq<string>)
    requires '%' !in lit
    ensures Conversions(lit + fmt) == Conversions(fmt)
    ensures Format(lit + fmt, args) ==
      match Format(fmt, args) case Ok(rest) => Ok(lit + rest) case Err(e) => Err(e)
  {
    if lit != [] {
      var whole := lit + fmt;
      assert lit[0] in lit;
      assert whole[0] == lit[0] != '%' && whole != [];
      assert whole[1..] == lit[1..] + fmt;
      FormatLiteral(lit[1..], fmt, args);
      assert Conversions(whole) == Conversions(lit[1..] + fmt);
      assert Format(whole, args) == match Format(lit[1..] + fmt, args)
        case Ok(rest) => Ok([lit[0]] + rest) case Err(e) => Err(e);
      match Format(fmt, args)
      case Ok(rest) =>
        assert [lit[0]] + (lit[1..] + rest) == lit + rest;
      case Err(e) =>
    } else {
      assert lit + fmt == fmt;
      match Format(fmt, args)
      case Ok(rest) =>
        assert lit + rest == rest;
      case Err(e) =>
    }
  }

  /** A `%s` conversion takes the next item. */
  lemma {:induction false} FormatConversion(fmt: string, arg: string, args: seq<string>)
    ensures Conversions("%s" + fmt) == 1 + Conversions(fmt)
    ensures Format("%s" + fmt, [arg] + args) ==
      match Format(fmt, args) case Ok(rest) => Ok(arg + rest) case Err(e) => Err(e)
  {
    assert ("%s" + fmt)[2..] == fmt;
    assert ([arg] + args)[1..] == args;
  }

  /** The format of the device check's message, "Circuit %s contains non instance %s". */
  function NonInstanceFormat(): string
  {
    "Circuit " + ("%s" + NonInstanceTail())
  }

  /** The part of that format after its first conversion. */
  function NonInstanceTail(): string
  {
    " contains non instance " + "%s"
  }

  /** The tail has one `%s` conversion, filled with the node. */
  lemma {:induction false} NonInstanceTailFilled(b: string)
    ensures Conversions(NonInstanceTail()) == 1
    ensures Format(NonInstanceTail(), [b]) == Ok(" contains non instance " + b)
  {
    FormatConversion([], b, []);
    assert "%s" + [] == "%s" && [b] + [] == [b] && b + [] == b;
    FormatLiteral(" contains non instance ", "%s", [b]);
  }

  /** The format has two `%s` conversions, filled with the circuit and the node. */
  lemma {:induction false} NonInstanceFormatFilled(a: string, b: string)
    ensures Conversions(NonInstanceFormat()) == 2
    ensures Format(NonInstanceFormat(), [a, b]) == Ok("Circuit " + a + " contains non instance " + b)
  {
    var mid := " contains non instance ";
    var conv := "%s" + NonInstanceTail();
    assert Conversions(conv) == 2 && Format(conv, [a, b]) == Ok(a + (mid + b)) by {
      NonInstanceTailFilled(b);
      FormatConversion(NonInstanceTail(), a, [b]);
      assert [a] + [b] == [a, b];
    }
    FormatLiteral("Circuit ", conv, [a, b]);
    assert "Circuit " + (a + (mid + b)) == "Circuit " + a + mid + b;
  }

  /**
   * The exception the device check raises as written: the message operand
   * `ckt.name + instNode.name` is one string, and the format has two `%s`.
   */
  function DeviceCheckErrorAsWritten(cktName: string, nodeName: string): PyError
  {
    match Format(NonInstanceFormat(), [cktName + nodeName])
    case Ok(message) => AssertionError(message)
    case Err(e) => e
  }

  /** As written, a failing device check raises `TypeError`, whatever the names. */
  lemma {:induction false} DeviceCheckRaisesTypeError(cktName: string, nodeName: string)
    ensures DeviceCheckErrorAsWritten(cktName, nodeName) == TypeError
  {
    NonInstanceFormatFilled(cktName, nodeName);
  }

  /** The exception intended: an `AssertionError` naming the circuit and the node. */
  function DeviceCheckError(cktName: string, nodeName: string): (e: PyError)
    ensures e == AssertionError("Circuit " + cktName + " contains non instance " + nodeName)
  {
    NonInstanceFormatFilled(cktName, nodeName);
    match Format(NonInstanceFormat(), [cktName, nodeName])
    case Ok(message) => AssertionError(message)
    case Err(e) => e
  }

  // ---------------------------------------------------------------------------
  // writeInitObj
  // ---------------------------------------------------------------------------

  /** The fixed words of the `.initObj` file. */
  datatype Keyword = INST | NMOS | PMOS | RES | CAP | OTHER | NET

  /** A line of the `.initObj` file: a fixed word, a name, an integer, the three MOS sizes or the two passive sizes. */
  datatype InitLine = Key(kw: Keyword) | Word(s: string) | Number(n: int) | MosSizes(width: int, length: int, fingers: int) | PassiveSizes(w: int, l: int)

  datatype MosProps = MosProps(width: int, length: int, numFingers: int)
  datatype ResProps = ResProps(wr: int, lr: int, segNum: int)
  datatype CapProps = CapProps(w: int, lr: int, numFingers: int)

  /** The physical property database: device sizes by implementation index. */
  datatype PhyDb = PhyDb(nch: nat -> MosProps, pch: nat -> MosProps, resistor: nat -> ResProps, capacitor: nat -> CapProps)

  /** The types whose sizes a node record carries. */
  predicate IsSizedDevice(t: ImplType)
  {
    t.PCELL_Nch? || t.PCELL_Pch? || t.PCELL_Res? || t.PCELL_Cap?
  }

  /** The keyword of a node record. */
  function KeywordOf(t: ImplType): Keyword
  {
    match t
    case PCELL_Nch => NMOS
    case PCELL_Pch => PMOS
    case PCELL_Res => RES
    case PCELL_Cap => CAP
    case _ => OTHER
  }

  /** The lines naming the device of a node: keyword, node name, and the sizes of a known device. */
  function DeviceLines(sub: Circuit, name: string, phy: PhyDb): (r: seq<InitLine>)
    ensures |r| == (if IsSizedDevice(sub.implType) then 3 else 2)
  {
    match sub.implType
    case PCELL_Nch =>
      var p := phy.nch(sub.implIdx);
      [Key(NMOS), Word(name), MosSizes(p.width, p.length, p.numFingers)]
    case PCELL_Pch =>
      var p := phy.pch(sub.implIdx);
      [Key(PMOS), Word(name), MosSizes(p.width, p.length, p.numFingers)]
    case PCELL_Res =>
      var r := phy.resistor(sub.implIdx);
      [Key(RES), Word(name), PassiveSizes(r.wr, r.lr)]
    case PCELL_Cap =>
      var c := phy.capacitor(sub.implIdx);
      [Key(CAP), Word(name), PassiveSizes(c.w, c.lr)]
    case _ =>
      [Key(OTHER), Word(name)]
  }

  /** The net index of each pin, one line per pin, in pin order. */
  function PinLines(ckt: Circuit, pinIdxs: seq<nat>): (r: seq<InitLine>)
    requires forall p :: 0 <= p < |pinIdxs| ==> pinIdxs[p] < |ckt.pins|
    ensures |r| == |pinIdxs|
  {
    if pinIdxs == [] then []
    else PinLines(ckt, pinIdxs[..|pinIdxs| - 1]) + [Number(ckt.pins[pinIdxs[|pinIdxs| - 1]].netIdx)]
  }

  /** The record of node `id`. */
  function NodeRecord(ckts: seq<Circuit>, ckt: Circuit, phy: PhyDb, id: nat): seq<InitLine>
    requires NodesResolve(ckts, ckt) && id < |ckt.nodes|
  {
    var node := ckt.nodes[id];
    [Key(INST), Number(id)] + DeviceLines(ckts[node.graphIdx], node.name, phy) + PinLines(ckt, node.pinIdxs)
  }

  /** The records of the first `n` nodes. */
  function NodeRecords(ckts: seq<Circuit>, ckt: Circuit, phy: PhyDb, n: nat): seq<InitLine>
    requires NodesResolve(ckts, ckt) && n <= |ckt.nodes|
  {
    if n == 0 then [] else NodeRecords(ckts, ckt, phy, n - 1) + NodeRecord(ckts, ckt, phy, n - 1)
  }

  /** The records of the first `n` nets: "NET", the index, the name. */
  function NetRecords(ckt: Circuit, n: nat): (r: seq<InitLine>)
    requires n <= |ckt.nets|
    ensures |r| == 3 * n
  {
    if n == 0 then [] else NetRecords(ckt, n - 1) + [Key(NET), Number(n - 1), Word(ckt.nets[n - 1].name)]
  }

  /**
   * The lines `writeInitObj` writes for one node, under instance id
   * `instId`, after the records of the nodes before it: "Inst" and the id,
   * the device lines of the node's circuit, then the net of each of the
   * node's pins.
   */
  method WriteNodeRecord(ckts: seq<Circuit>, ckt: Circuit, phy: PhyDb, nodeIdx: nat, instId: nat, lines0: seq<InitLine>)
    returns (lines: seq<InitLine>)
    requires NodesResolve(ckts, ckt) && nodeIdx < |ckt.nodes| && instId == nodeIdx
    requires lines0 == NodeRecords(ckts, ckt, phy, nodeIdx)
    ensures lines == NodeRecords(ckts, ckt, phy, nodeIdx + 1)
  {
    var instNode := ckt.nodes[nodeIdx];
    var cirNode := ckts[instNode.graphIdx];
    var record := [Key(INST), Number(instId)] + DeviceLines(cirNode, instNode.name, phy);
    ghost var withDevice := record;
    for pin := 0 to |instNode.pinIdxs|
      invariant record == withDevice + PinLines(ckt, instNode.pinIdxs[..pin])
    {
      var pinIdx := instNode.pinIdxs[pin];
      var netIdx := ckt.pins[pinIdx].netIdx;
      record := record + [Number(netIdx)];
      assert instNode.pinIdxs[..pin + 1][..pin] == instNode.pinIdxs[..pin];
    }
    assert instNode.pinIdxs[..|instNode.pinIdxs|] == instNode.pinIdxs;
    assert record == NodeRecord(ckts, ckt, phy, nodeIdx);
    lines := lines0 + record;
  }

  /** The lines `writeInitObj` writes after the node records: one "NET" record per net, in index order. */
  method WriteNetRecords(ckt: Circuit) returns (lines: seq<InitLine>)
    ensures lines == NetRecords(ckt, |ckt.nets|)
  {
    lines := [];
    for net := 0 to |ckt.nets|
      invariant lines == NetRecords(ckt, net)
    {
      lines := lines + [Key(NET), Number(net), Word(ckt.nets[net].name)];
    }
  }

  /** None of the first `k` nodes has a device implementation type itself: the assertion holds for each. */
  predicate NoDeviceBefore(ckt: Circuit, isDevice: ImplType -> bool, k: nat)
    requires k <= |ckt.nodes|
  {
    k == 0 || (NoDeviceBefore(ckt, isDevice, k - 1) && !isDevice(ckt.nodes[k - 1].implType))
  }

  /** `NoDeviceBefore` says that every node before `k` passes the assertion. */
  lemma {:induction false} NoDeviceBeforeMeans(ckt: Circuit, isDevice: ImplType -> bool, k: nat)
    requires k <= |ckt.nodes|
    ensures NoDeviceBefore(ckt, isDevice, k) <==> forall n :: 0 <= n < k ==> !isDevice(ckt.nodes[n].implType)
  {
    if k > 0 {
      NoDeviceBeforeMeans(ckt, isDevice, k - 1);
    }
  }

  /**
   * The node loop of `writeInitObj`: the records of the nodes in order, the
   * k-th under instance id k.  The loop stops at the first node whose own
   * implementation type is a device, where the device check raises; `instId`
   * is then the index of that node, and the records written so far stay in
   * the file.
   */
  method WriteNodeRecords(ckts: seq<Circuit>, ckt: Circuit, phy: PhyDb, isDevice: ImplType -> bool)
    returns (lines: seq<InitLine>, instId: nat)
    requires NodesResolve(ckts, ckt)
    ensures instId <= |ckt.nodes| && lines == NodeRecords(ckts, ckt, phy, instId)
    ensures NoDeviceBefore(ckt, isDevice, instId)
    ensures instId < |ckt.nodes| ==> isDevice(ckt.nodes[instId].implType)
  {
    lines := [];
    instId := 0;
    for nodeIdx := 0 to |ckt.nodes|
      invariant instId == nodeIdx && lines == NodeRecords(ckts, ckt, phy, nodeIdx)
      invariant NoDeviceBefore(ckt, isDevice, nodeIdx)
    {
      var instNode := ckt.nodes[nodeIdx];
      if isDevice(instNode.implType) {
        return;
      }
      lines := WriteNodeRecord(ckts, ckt, phy, nodeIdx, instId, lines);
      instId := instId + 1;
    }
  }

  /**
   * `writeInitObj(cktIdx)`, returning the lines written: the node records,
   * then, when every node passed the device check, the net records
   * (`raised` is `None`).  Otherwise the records before the first failing
   * node stay in the file and the check raises its exception, here the
   * intended `AssertionError` naming the circuit and that node.
   */
  method WriteInitObj(ckts: seq<Circuit>, cktIdx: nat, phy: PhyDb, isDevice: ImplType -> bool)
    returns (lines: seq<InitLine>, raised: Option<PyError>)
    requires cktIdx < |ckts| && NodesResolve(ckts, ckts[cktIdx])
    ensures raised.None? <==> forall n :: 0 <= n < |ckts[cktIdx].nodes| ==> !isDevice(ckts[cktIdx].nodes[n].implType)
    ensures raised.None? ==> lines == NodeRecords(ckts, ckts[cktIdx], phy, |ckts[cktIdx].nodes|) + NetRecords(ckts[cktIdx], |ckts[cktIdx].nets|)
    ensures raised.Some? ==> exists k :: 0 <= k < |ckts[cktIdx].nodes| && isDevice(ckts[cktIdx].nodes[k].implType) &&
                                     (forall n :: 0 <= n < k ==> !isDevice(ckts[cktIdx].nodes[n].implType)) &&
                                     lines == NodeRecords(ckts, ckts[cktIdx], phy, k) &&
                                     raised.value == DeviceCheckError(ckts[cktIdx].name, ckts[cktIdx].nodes[k].name)
  {
    var ckt := ckts[cktIdx];
    var instId;
    lines, instId := WriteNodeRecords(ckts, ckt, phy, isDevice);
    NoDeviceBeforeMeans(ckt, isDevice, instId);
    NoDeviceBeforeMeans(ckt, isDevice, |ckt.nodes|);
    if instId < |ckt.nodes| {
      raised := Some(DeviceCheckError(ckt.name, ckt.nodes[instId].name));
    } else {
      raised := None;
      var netLines := WriteNetRecords(ckt);
      lines := lines + netLines;
    }
  }

  /**
   * The device lines start with the keyword and the node name; a MOS device
   * adds its three sizes and a resistor or capacitor its two.
   */
  lemma {:induction false} DeviceLinesShape(sub: Circuit, name: string, phy: PhyDb)
    ensures DeviceLines(sub, name, phy)[0] == Key(KeywordOf(sub.implType)) && DeviceLines(sub, name, phy)[1] == Word(name)
    ensures sub.implType.PCELL_Nch? || sub.implType.PCELL_Pch? <==>
      |DeviceLines(sub, name, phy)| == 3 && DeviceLines(sub, name, phy)[2].MosSizes?
    ensures sub.implType.PCELL_Res? || sub.implType.PCELL_Cap? <==>
      |DeviceLines(sub, name, phy)| == 3 && DeviceLines(sub, name, phy)[2].PassiveSizes?
  {
  }

  /** The pin lines hold the net of each pin, in pin order. */
  lemma {:induction false} PinLinesNets(ckt: Circuit, pinIdxs: seq<nat>, p: nat)
    requires forall q :: 0 <= q < |pinIdxs| ==> pinIdxs[q] < |ckt.pins|
    requires p < |pinIdxs|
    ensures PinLines(ckt, pinIdxs)[p] == Number(ckt.pins[pinIdxs[p]].netIdx)
  {
    var init := pinIdxs[..|pinIdxs| - 1];
    if p < |pinIdxs| - 1 {
      PinLinesNets(ckt, init, p);
    }
  }

  /** Net record i is "NET", i and the name of net i, at lines 3i to 3i + 2. */
  lemma {:induction false} NetRecordsLayout(ckt: Circuit, n: nat, i: nat)
    requires i < n <= |ckt.nets|
    ensures NetRecords(ckt, n)[3 * i] == Key(NET) && NetRecords(ckt, n)[3 * i + 1] == Number(i)
    ensures NetRecords(ckt, n)[3 * i + 2] == Word(ckt.nets[i].name)
  {
    if i < n - 1 {
      NetRecordsLayout(ckt, n - 1, i);
    }
  }

  /** A record starts with "Inst", the instance id, the node's keyword and the node's name. */
  lemma {:induction false} NodeRecordStart(ckts: seq<Circuit>, ckt: Circuit, phy: PhyDb, k: nat)
    requires NodesResolve(ckts, ckt) && k < |ckt.nodes|
    ensures |NodeRecord(ckts, ckt, phy, k)| >= 4
    ensures NodeRecord(ckts, ckt, phy, k)[0] == Key(INST) && NodeRecord(ckts, ckt, phy, k)[1] == Number(k)
    ensures NodeRecord(ckts, ckt, phy, k)[2] == Key(KeywordOf(ckts[ckt.nodes[k].graphIdx].implType))
    ensures NodeRecord(ckts, ckt, phy, k)[3] == Word(ckt.nodes[k].name)
  {
    var node := ckt.nodes[k];
    var device := DeviceLines(ckts[node.graphIdx], node.name, phy);
    DeviceLinesShape(ckts[node.graphIdx], node.name, phy);
    var record := NodeRecord(ckts, ckt, phy, k);
    assert record == [Key(INST), Number(k)] + device + PinLines(ckt, node.pinIdxs);
    assert record[2] == device[0] && record[3] == device[1];
  }

  /** A record's length: two lines, the device lines, and one line per pin. */
  lemma {:induction false} NodeRecordLength(ckts: seq<Circuit>, ckt: Circuit, phy: PhyDb, id: nat)
    requires NodesResolve(ckts, ckt) && id < |ckt.nodes|
    ensures |NodeRecord(ckts, ckt, phy, id)| ==
      2 + (if IsSizedDevice(ckts[ckt.nodes[id].graphIdx].implType) then 3 else 2) + |ckt.nodes[id].pinIdxs|
  {
  }
}
