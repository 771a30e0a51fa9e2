/**
 * flow/python/MagicalDB.py: the database of the flow as the Python scripts
 * see it (circuits with their nodes, pins and nets, as the C++ bindings
 * expose them), the choice of the input netlist, the marking of power and
 * digital nets after parsing, and the printable name of an implementation
 * type.
 */
module MagicalDb {
  import opened Wrappers
  import FlowParams

  /**
   * `ImplType`: the implementation types the scripts name.  The C++
   * enumeration is not part of this model; every other value is `OtherImpl`.
   */
  datatype ImplType = UNSET | PCELL_Cap | PCELL_Res | PCELL_Nch | PCELL_Pch | OtherImpl(code: nat)

  /** The flags of a net: power, ground, digital and analog. */
  datatype NetFlags = NetFlags(vdd: bool, vss: bool, digital: bool, analog: bool)

  /** A net of a circuit. */
  datatype Net = Net(name: string, flags: NetFlags)

  /** A pin of a circuit, on net `netIdx`. */
  datatype Pin = Pin(netIdx: nat)

  /** A node of a circuit: an instance of circuit `graphIdx`, connected through circuit pins `pinIdxs`. */
  datatype Node = Node(name: string, graphIdx: nat, implType: ImplType, pinIdxs: seq<nat>)

  /**
   * A circuit: its nodes, pins and nets, and the indices of the nets its
   * p-substrate (`psub`) and n-well (`nwell`) bodies connect to.  A device
   * circuit has a device implementation type and its sizes at `implIdx` of
   * the physical property database.
   */
  datatype Circuit = Circuit(
    name: string,
    implType: ImplType,
    implIdx: nat,
    nodes: seq<Node>,
    pins: seq<Pin>,
    nets: seq<Net>,
    psubs: seq<nat>,
    nwells: seq<nat>)

  /** The p-substrate and n-well nets of a circuit are nets of that circuit. */
  predicate BodyNetsInRange(c: Circuit)
  {
    (forall p :: 0 <= p < |c.psubs| ==> c.psubs[p] < |c.nets|) &&
    (forall p :: 0 <= p < |c.nwells| ==> c.nwells[p] < |c.nets|)
  }

  // ---------------------------------------------------------------------------
  // implTypeStr
  // ---------------------------------------------------------------------------

  /** `implTypeStr(implType)`; the capacitor's name is spelled "PCELLL_CAP". */
  function ImplTypeStr(t: ImplType): (s: string)
    ensures s == "UNKNOWN" <==> t.OtherImpl?
  {
    match t
    case UNSET => "UNSET"
    case PCELL_Cap => "PCELLL_CAP"
    case PCELL_Res => "PCELL_RES"
    case PCELL_Nch => "PCELL_NCH"
    case PCELL_Pch => "PCELL_PCH"
    case OtherImpl(_) => "UNKNOWN"
  }

  /** The five named types get five different names. */
  lemma {:induction false} ImplTypeStrDistinguishesKnownTypes(t: ImplType, u: ImplType)
    requires !t.OtherImpl? && !u.OtherImpl? && t != u
    ensures ImplTypeStr(t) != ImplTypeStr(u)
  {
    var s, r := ImplTypeStr(t), ImplTypeStr(u);
    if |s| == |r| {
      assert s[6] != r[6] || s[7] != r[7];
    }
  }

  // ---------------------------------------------------------------------------
  // parse_input_netlist
  // ---------------------------------------------------------------------------

  /** The Python exceptions of the model: the choice of netlist, and the device check of `Constraint.py`. */
  datatype PyError = TypeError | NameError | AssertionError(message: string)

  /** The reader `parse_input_netlist` calls, with the value it passes as the path. */
  datatype NetlistRead = ReadHspice(path: FlowParams.Json) | ReadSpectre(path: FlowParams.Json)

  /** A number or a boolean: the operands Python's `+` adds arithmetically. */
  predicate IsNumeric(j: FlowParams.Json)
  {
    j.JNumber? || j.JBool?
  }

  /** The integer value of a number or a boolean (`True` is 1, `False` is 0). */
  function NumericValue(j: FlowParams.Json): int
    requires IsNumeric(j)
  {
    if j.JNumber? then j.n else if j.b then 1 else 0
  }

  /**
   * `resultDir + netlist`, Python's `+` on the values a parameter can hold:
   * two strings or two lists concatenate, numbers and booleans add, and every
   * other pair (`None`, a dictionary, or operands of different kinds) raises
   * `TypeError`.
   */
  function PathOf(resultDir: FlowParams.Json, netlist: FlowParams.Json): (r: Result<FlowParams.Json, PyError>)
    ensures r.Err? <==> !((resultDir.JString? && netlist.JString?) || (resultDir.JArray? && netlist.JArray?) ||
                          (IsNumeric(resultDir) && IsNumeric(netlist)))
    ensures r.Err? ==> r.error == TypeError
    ensures resultDir.JString? && netlist.JString? ==>
      (r.Ok? && r.value.JString? && |r.value.s| == |resultDir.s| + |netlist.s| &&
       r.value.s[..|resultDir.s|] == resultDir.s && r.value.s[|resultDir.s|..] == netlist.s)
    ensures resultDir.JArray? && netlist.JArray? ==>
      (r.Ok? && r.value.JArray? && |r.value.items| == |resultDir.items| + |netlist.items| &&
       r.value.items[..|resultDir.items|] == resultDir.items && r.value.items[|resultDir.items|..] == netlist.items)
    ensures IsNumeric(resultDir) && IsNumeric(netlist) ==>
      (r.Ok? && r.value.JNumber? && r.value.n - NumericValue(netlist) == NumericValue(resultDir))
  {
    if resultDir.JString? && netlist.JString? then Ok(FlowParams.JString(resultDir.s + netlist.s))
    else if resultDir.JArray? && netlist.JArray? then Ok(FlowParams.JArray(resultDir.items + netlist.items))
    else if IsNumeric(resultDir) && IsNumeric(netlist) then Ok(FlowParams.JNumber(NumericValue(resultDir) + NumericValue(netlist)))
    else Err(TypeError)
  }

  /** `+` with `None` on either side raises `TypeError`, whatever the other operand. */
  lemma {:induction false} PathOfNoneRaises(j: FlowParams.Json)
    ensures PathOf(FlowParams.JNull, j) == Err(TypeError) && PathOf(j, FlowParams.JNull) == Err(TypeError)
  {
  }

  /**
   * `parse_input_netlist(params)`: the hspice netlist when it is not `None`,
   * else the spectre netlist when it is not `None`, else an exception; the
   * exception class `ParamException` is not defined, so raising it raises a
   * `NameError`.
   */
  function InputNetlist(hspice: FlowParams.Json, spectre: FlowParams.Json, resultDir: FlowParams.Json): (r: Result<NetlistRead, PyError>)
    ensures r == Err(NameError) <==> hspice.JNull? && spectre.JNull?
    ensures r.Ok? && r.value.ReadHspice? ==> !hspice.JNull? && PathOf(resultDir, hspice) == Ok(r.value.path)
    ensures r.Ok? && r.value.ReadSpectre? ==> hspice.JNull? && PathOf(resultDir, spectre) == Ok(r.value.path)
  {
    if !hspice.JNull? then
      var path := PathOf(resultDir, hspice);
      if path.Ok? then Ok(ReadHspice(path.value)) else Err(path.error)
    else if !spectre.JNull? then
      var path := PathOf(resultDir, spectre);
      if path.Ok? then Ok(ReadSpectre(path.value)) else Err(path.error)
    else
      Err(NameError)
  }

  /**
   * An hspice netlist wins whatever the spectre setting is, and with a result
   * directory and a netlist name given as strings the reader receives their
   * concatenation.
   */
  lemma {:induction false} HspiceNetlistPreferred(hspice: FlowParams.Json, spectre1: FlowParams.Json, spectre2: FlowParams.Json, resultDir: FlowParams.Json)
    ensures !hspice.JNull? ==> InputNetlist(hspice, spectre1, resultDir) == InputNetlist(hspice, spectre2, resultDir)
    ensures hspice.JString? && resultDir.JString? ==>
      InputNetlist(hspice, spectre1, resultDir) == Ok(ReadHspice(FlowParams.JString(resultDir.s + hspice.s)))
    ensures hspice.JNull? && spectre1.JString? && resultDir.JString? ==>
      InputNetlist(hspice, spectre1, resultDir) == Ok(ReadSpectre(FlowParams.JString(resultDir.s + spectre1.s)))
    ensures !hspice.JNull? && resultDir.JNull? ==> InputNetlist(hspice, spectre1, resultDir) == Err(TypeError)
  {
  }

  // ---------------------------------------------------------------------------
  // Net marking
  // ---------------------------------------------------------------------------

  /** `s` occurs in `text` at some position. */
  predicate IsSubstring(s: string, text: string)
  {
    exists i :: 0 <= i <= |text| && s <= text[i..]
  }

  /** A value that Python's `in` accepts as a container: a list, a string or a dictionary. */
  predicate IsContainer(names: FlowParams.Json)
  {
    names.JArray? || names.JString? || names.JObject?
  }

  /** `name in names`: list membership, substring, or dictionary key. */
  predicate Contains(names: FlowParams.Json, name: string)
  {
    match names
    case JArray(items) => FlowParams.JString(name) in items
    case JString(text) => IsSubstring(name, text)
    case JObject(fields) => name in fields
    case _ => false
  }

  /** A list of names given as strings contains exactly those names. */
  lemma {:induction false} ContainsListedNames(names: seq<string>, name: string)
    ensures Contains(FlowParams.StringList(names), name) <==> name in names
  {
    var j := FlowParams.StringList(names);
    if name in names {
      var i :| 0 <= i < |names| && names[i] == name;
      assert j.items[i] == FlowParams.JString(name);
    }
  }

  /** A net after `markPowerNets`: n-well nets and vdd names become power, p-substrate nets and vss names ground. */
  function PowerMarkedNet(c: Circuit, j: nat, vddNames: FlowParams.Json, vssNames: FlowParams.Json): Net
    requires j < |c.nets|
  {
    var net := c.nets[j];
    net.(flags := net.flags.(
      vdd := net.flags.vdd || j in c.nwells || Contains(vddNames, net.name),
      vss := net.flags.vss || j in c.psubs || Contains(vssNames, net.name)))
  }

  /** A net once the first `p` p-substrate nets are marked ground and the first `w` n-well nets power. */
  function BodyMarkedNet(c: Circuit, j: nat, p: nat, w: nat): Net
    requires j < |c.nets| && p <= |c.psubs| && w <= |c.nwells|
  {
    var net := c.nets[j];
    net.(flags := net.flags.(vss := net.flags.vss || j in c.psubs[..p], vdd := net.flags.vdd || j in c.nwells[..w]))
  }

  /** A circuit after `markPowerNets`. */
  function PowerMarked(c: Circuit, vddNames: FlowParams.Json, vssNames: FlowParams.Json): Circuit
  {
    c.(nets := seq(|c.nets|, j requires 0 <= j < |c.nets| => PowerMarkedNet(c, j, vddNames, vssNames)))
  }

  /** A net after `markDigitalNets`: digital when named in the list, analog otherwise. */
  function DigitalMarkedNet(net: Net, digitalNames: seq<string>): Net
  {
    net.(flags := net.flags.(
      digital := net.flags.digital || net.name in digitalNames,
      analog := net.flags.analog || net.name !in digitalNames))
  }

  /** A circuit after `markDigitalNets`. */
  function DigitalMarked(c: Circuit, digitalNames: seq<string>): Circuit
  {
    c.(nets := seq(|c.nets|, j requires 0 <= j < |c.nets| => DigitalMarkedNet(c.nets[j], digitalNames)))
  }

  /**
   * Power marking keeps every net's name and signal flags and only ever sets
   * the power flags; a net named in both lists becomes both power and ground.
   */
  lemma {:induction false} PowerMarkingFacts(c: Circuit, vddNames: FlowParams.Json, vssNames: FlowParams.Json, j: nat)
    requires j < |c.nets|
    ensures |PowerMarked(c, vddNames, vssNames).nets| == |c.nets|
    ensures PowerMarked(c, vddNames, vssNames).nets[j].name == c.nets[j].name
    ensures PowerMarked(c, vddNames, vssNames).nets[j].flags.digital == c.nets[j].flags.digital
    ensures PowerMarked(c, vddNames, vssNames).nets[j].flags.analog == c.nets[j].flags.analog
    ensures c.nets[j].flags.vdd ==> PowerMarked(c, vddNames, vssNames).nets[j].flags.vdd
    ensures c.nets[j].flags.vss ==> PowerMarked(c, vddNames, vssNames).nets[j].flags.vss
    ensures j in c.psubs ==> PowerMarked(c, vddNames, vssNames).nets[j].flags.vss
    ensures j in c.nwells ==> PowerMarked(c, vddNames, vssNames).nets[j].flags.vdd
    ensures Contains(vddNames, c.nets[j].name) && Contains(vssNames, c.nets[j].name) ==>
      PowerMarked(c, vddNames, vssNames).nets[j].flags.vdd && PowerMarked(c, vddNames, vssNames).nets[j].flags.vss
  {
  }

  /** Marking the power nets twice is marking them once. */
  lemma {:induction false} PowerMarkingIdempotent(c: Circuit, vddNames: FlowParams.Json, vssNames: FlowParams.Json)
    ensures PowerMarked(PowerMarked(c, vddNames, vssNames), vddNames, vssNames) == PowerMarked(c, vddNames, vssNames)
  {
    var once := PowerMarked(c, vddNames, vssNames);
    var twice := PowerMarked(once, vddNames, vssNames);
    assert |twice.nets| == |once.nets|;
    forall j | 0 <= j < |once.nets|
      ensures twice.nets[j] == once.nets[j]
    {
      assert twice.nets[j] == PowerMarkedNet(once, j, vddNames, vssNames);
    }
  }

  /**
   * On nets not yet marked, digital marking gives every net exactly one of
   * the digital and analog flags, digital exactly when its name is listed.
   */
  lemma {:induction false} DigitalMarkingExclusive(c: Circuit, digitalNames: seq<string>, j: nat)
    requires j < |c.nets| && !c.nets[j].flags.digital && !c.nets[j].flags.analog
    ensures DigitalMarked(c, digitalNames).nets[j].flags.digital <==> c.nets[j].name in digitalNames
    ensures DigitalMarked(c, digitalNames).nets[j].flags.digital != DigitalMarked(c, digitalNames).nets[j].flags.analog
    ensures DigitalMarked(c, digitalNames).nets[j].flags.vdd == c.nets[j].flags.vdd
    ensures DigitalMarked(c, digitalNames).nets[j].flags.vss == c.nets[j].flags.vss
  {
  }

  /** The p-substrate loop of `markPowerNets`: every p-substrate net of the circuit marked ground. */
  method MarkPsubNets(ckt: Circuit) returns (nets: seq<Net>)
    requires BodyNetsInRange(ckt)
    ensures |nets| == |ckt.nets|
    ensures forall j :: 0 <= j < |nets| ==> nets[j] == BodyMarkedNet(ckt, j, |ckt.psubs|, 0)
  {
    nets := ckt.nets;
    for psubIdx := 0 to |ckt.psubs|
      invariant |nets| == |ckt.nets|
      invariant forall j :: 0 <= j < |nets| ==> nets[j] == BodyMarkedNet(ckt, j, psubIdx, 0)
    {
      var p := ckt.psubs[psubIdx];
      nets := nets[p := nets[p].(flags := nets[p].flags.(vss := true))];
      assert ckt.psubs[..psubIdx + 1] == ckt.psubs[..psubIdx] + [p];
    }
  }

  /** The n-well loop of `markPowerNets`: every n-well net of the circuit marked power. */
  method MarkNwellNets(ckt: Circuit, nets0: seq<Net>) returns (nets: seq<Net>)
    requires BodyNetsInRange(ckt) && |nets0| == |ckt.nets|
    requires forall j :: 0 <= j < |nets0| ==> nets0[j] == BodyMarkedNet(ckt, j, |ckt.psubs|, 0)
    ensures |nets| == |ckt.nets|
    ensures forall j :: 0 <= j < |nets| ==> nets[j] == BodyMarkedNet(ckt, j, |ckt.psubs|, |ckt.nwells|)
  {
    nets := nets0;
    for nwellIdx := 0 to |ckt.nwells|
      invariant |nets| == |ckt.nets|
      invariant forall j :: 0 <= j < |nets| ==> nets[j] == BodyMarkedNet(ckt, j, |ckt.psubs|, nwellIdx)
    {
      var w := ckt.nwells[nwellIdx];
      nets := nets[w := nets[w].(flags := nets[w].flags.(vdd := true))];
      assert ckt.nwells[..nwellIdx + 1] == ckt.nwells[..nwellIdx] + [w];
    }
  }

  /** The name loop of `markPowerNets`: nets named in the vdd list become power, nets named in the vss list ground. */
  method MarkNamedNets(ckt: Circuit, vddNames: FlowParams.Json, vssNames: FlowParams.Json, nets0: seq<Net>) returns (nets: seq<Net>)
    requires BodyNetsInRange(ckt) && |nets0| == |ckt.nets|
    requires forall j :: 0 <= j < |nets0| ==> nets0[j] == BodyMarkedNet(ckt, j, |ckt.psubs|, |ckt.nwells|)
    ensures |nets| == |ckt.nets|
    ensures forall j :: 0 <= j < |nets| ==> nets[j] == PowerMarkedNet(ckt, j, vddNames, vssNames)
  {
    nets := nets0;
    assert ckt.psubs[..|ckt.psubs|] == ckt.psubs && ckt.nwells[..|ckt.nwells|] == ckt.nwells;
    for netIdx := 0 to |nets|
      invariant |nets| == |ckt.nets|
      invariant forall j :: 0 <= j < netIdx ==> nets[j] == PowerMarkedNet(ckt, j, vddNames, vssNames)
      invariant forall j :: netIdx <= j < |nets| ==> nets[j] == BodyMarkedNet(ckt, j, |ckt.psubs|, |ckt.nwells|)
    {
      var net := nets[netIdx];
      if Contains(vddNames, net.name) {
        net := net.(flags := net.flags.(vdd := true));
      }
      if Contains(vssNames, net.name) {
        net := net.(flags := net.flags.(vss := true));
      }
      nets := nets[netIdx := net];
    }
  }

  /**
   * The body of the circuit loop of `markPowerNets`: marks the p-substrate
   * nets ground and the n-well nets power, then every net named in the vdd
   * list power and every net named in the vss list ground.
   */
  method MarkCircuitPowerNets(ckt: Circuit, vddNames: FlowParams.Json, vssNames: FlowParams.Json) returns (marked: Circuit)
    requires BodyNetsInRange(ckt)
    ensures marked == PowerMarked(ckt, vddNames, vssNames)
  {
    var nets := MarkPsubNets(ckt);
    nets := MarkNwellNets(ckt, nets);
    nets := MarkNamedNets(ckt, vddNames, vssNames, nets);
    marked := ckt.(nets := nets);
  }

  /** The body of the circuit loop of `markDigitalNets`: digital when the name is listed, analog otherwise. */
  method MarkCircuitDigitalNets(ckt: Circuit, digitalNames: seq<string>) returns (marked: Circuit)
    ensures marked == DigitalMarked(ckt, digitalNames)
  {
    var nets := ckt.nets;
    for netIdx := 0 to |nets|
      invariant |nets| == |ckt.nets|
      invariant forall j :: 0 <= j < netIdx ==> nets[j] == DigitalMarkedNet(ckt.nets[j], digitalNames)
      invariant forall j :: netIdx <= j < |nets| ==> nets[j] == ckt.nets[j]
    {
      var net := nets[netIdx];
      if net.name in digitalNames {
        net := net.(flags := net.flags.(digital := true));
      } else {
        net := net.(flags := net.flags.(analog := true));
      }
      nets := nets[netIdx := net];
    }
    marked := ckt.(nets := nets);
  }

  /** The Python `MagicalDB`: the circuits of the design, the parameters, and its own digital net names. */
  class MagicalDB {
    var ckts: seq<Circuit>
    var digitalNetNames: seq<string>
    const params: FlowParams.Params

    /** `__init__(params)`, with the circuits the netlist reader produced. */
    constructor (params: FlowParams.Params, ckts: seq<Circuit>)
      ensures this.params == params && this.ckts == ckts && digitalNetNames == ["clk"]
    {
      this.params := params;
      this.ckts := ckts;
      digitalNetNames := ["clk"];
    }

    /**
     * `markPowerNets()`: in every circuit, marks the p-substrate nets ground
     * and the n-well nets power, then every net named in the parameters'
     * vdd list power and every net named in their vss list ground.
     */
    method MarkPowerNets()
      requires forall i :: 0 <= i < |ckts| ==> BodyNetsInRange(ckts[i])
      requires IsContainer(params.vddNetNames) && IsContainer(params.vssNetNames)
      modifies this`ckts
      ensures |ckts| == |old(ckts)|
      ensures forall i :: 0 <= i < |ckts| ==> ckts[i] == PowerMarked(old(ckts)[i], params.vddNetNames, params.vssNetNames)
    {
      for cktIdx := 0 to |ckts|
        invariant |ckts| == |old(ckts)|
        invariant forall i :: 0 <= i < cktIdx ==> ckts[i] == PowerMarked(old(ckts)[i], params.vddNetNames, params.vssNetNames)
        invariant forall i :: cktIdx <= i < |ckts| ==> ckts[i] == old(ckts)[i]
      {
        var ckt := MarkCircuitPowerNets(ckts[cktIdx], params.vddNetNames, params.vssNetNames);
        ckts := ckts[cktIdx := ckt];
      }
    }

    /**
     * `markDigitalNets()`: in every circuit, marks every net digital when
     * its name is in the parameters' digital net names and analog otherwise.
     * The object's own `digitalNetNames` is not consulted.
     */
    method MarkDigitalNets()
      modifies this`ckts
      ensures |ckts| == |old(ckts)|
      ensures forall i :: 0 <= i < |ckts| ==> ckts[i] == DigitalMarked(old(ckts)[i], params.digitalNetNames)
    {
      for cktIdx := 0 to |ckts|
        invariant |ckts| == |old(ckts)|
        invariant forall i :: 0 <= i < cktIdx ==> ckts[i] == DigitalMarked(old(ckts)[i], params.digitalNetNames)
        invariant forall i :: cktIdx <= i < |ckts| ==> ckts[i] == old(ckts)[i]
      {
        var ckt := MarkCircuitDigitalNets(ckts[cktIdx], params.digitalNetNames);
        ckts := ckts[cktIdx := ckt];
      }
    }
  }
}
