/**
 * flow/python/Params.py: the parameters of the flow and their JSON form.
 * Python stores whatever a JSON document holds, so every field that `fromJson`
 * can set holds a JSON value; the lists that only the defaults set are lists
 * of strings.  The floating-point wire, via and spacing tables are not part
 * of this model.
 */
module FlowParams {
  /** A JSON value as `json.load` returns it; numbers are integers here. */
  datatype Json =
    | JNull
    | JBool(b: bool)
    | JNumber(n: int)
    | JString(s: string)
    | JArray(items: seq<Json>)
    | JObject(fields: map<string, Json>)

  /** A list of strings as a JSON array. */
  function StringList(names: seq<string>): (j: Json)
    ensures j.JArray? && |j.items| == |names|
    ensures forall i :: 0 <= i < |names| ==> j.items[i] == JString(names[i])
  {
    JArray(seq(|names|, i requires 0 <= i < |names| => JString(names[i])))
  }

  /** The keys `toJson` writes. */
  const WrittenKeys: set<string> := {"spectre_netlist", "hspice_netlist", "simple_tech_file", "resultDir"}

  /** The keys `fromJson` reads. */
  const ReadKeys: set<string> := WrittenKeys + {"lef", "techfile", "vddNetNames", "vssNetNames"}

  /** The values of the fields of a `Params` object. */
  datatype Settings = Settings(
    spectreNetlist: Json,
    hspiceNetlist: Json,
    simpleTechFile: Json,
    techfile: Json,
    lef: Json,
    vddNetNames: Json,
    vssNetNames: Json,
    digitalNetNames: seq<string>,
    stdCells: seq<string>,
    resultDir: Json,
    powerLayer: int,
    psubLayer: int,
    smallModuleAreaThreshold: int)

  /** The values `__init__` gives the fields. */
  function Defaults(): Settings
  {
    Settings(
      JNull, JNull, JString(""), JString(""), JString(""),
      StringList(["VDD", "vdd", "vdda", "vddd"]),
      StringList(["VSS", "GND", "vss", "gnd", "vssa", "vssd"]),
      ["clk"],
      ["SR_Latch_LVT", "NR2D8BWP_LVT", "BUFFD4BWP_LVT", "DFCND4BWP_LVT", "INVD4BWP_LVT", "DFCNQD2BWP_LVT", "DFCND4BWP_LVT_stupid"],
      JNull, 6, 6, 60)
  }

  /** The dictionary `toJson` builds. */
  function ToJsonOf(st: Settings): (data: map<string, Json>)
    ensures data.Keys == WrittenKeys
  {
    map["spectre_netlist" := st.spectreNetlist, "hspice_netlist" := st.hspiceNetlist,
        "simple_tech_file" := st.simpleTechFile, "resultDir" := st.resultDir]
  }

  /** A field after `if key in data: field = data[key]`. */
  function Overwritten(data: map<string, Json>, key: string, current: Json): Json
  {
    if key in data then data[key] else current
  }

  /** The fields after `fromJson(data)`: a recognised key present in `data` overwrites its field. */
  function FromJsonOf(st: Settings, data: map<string, Json>): Settings
  {
    st.(
      spectreNetlist := Overwritten(data, "spectre_netlist", st.spectreNetlist),
      hspiceNetlist := Overwritten(data, "hspice_netlist", st.hspiceNetlist),
      simpleTechFile := Overwritten(data, "simple_tech_file", st.simpleTechFile),
      resultDir := Overwritten(data, "resultDir", st.resultDir),
      lef := Overwritten(data, "lef", st.lef),
      techfile := Overwritten(data, "techfile", st.techfile),
      vddNetNames := Overwritten(data, "vddNetNames", st.vddNetNames),
      vssNetNames := Overwritten(data, "vssNetNames", st.vssNetNames))
  }

  /** The dictionary `toJson` writes holds the current values of the four written fields. */
  lemma {:induction false} ToJsonHoldsFields(st: Settings)
    ensures ToJsonOf(st)["spectre_netlist"] == st.spectreNetlist && ToJsonOf(st)["hspice_netlist"] == st.hspiceNetlist
    ensures ToJsonOf(st)["simple_tech_file"] == st.simpleTechFile && ToJsonOf(st)["resultDir"] == st.resultDir
    ensures ToJsonOf(Defaults()) == map["spectre_netlist" := JNull, "hspice_netlist" := JNull,
                                        "simple_tech_file" := JString(""), "resultDir" := JNull]
  {
  }

  /** Keys `fromJson` does not read change nothing; an empty dictionary changes nothing. */
  lemma {:induction false} FromJsonIgnoresUnknownKeys(st: Settings, data: map<string, Json>, key: string, value: Json)
    requires key !in ReadKeys
    ensures FromJsonOf(st, data[key := value]) == FromJsonOf(st, data)
    ensures FromJsonOf(st, map[]) == st
  {
  }

  /** `fromJson` never sets the digital net names, the standard cells or the layer settings. */
  lemma {:induction false} FromJsonKeepsUnreadFields(st: Settings, data: map<string, Json>)
    ensures FromJsonOf(st, data).digitalNetNames == st.digitalNetNames
    ensures FromJsonOf(st, data).stdCells == st.stdCells
    ensures FromJsonOf(st, data).powerLayer == st.powerLayer && FromJsonOf(st, data).psubLayer == st.psubLayer
    ensures FromJsonOf(st, data).smallModuleAreaThreshold == st.smallModuleAreaThreshold
  {
  }

  /** Loading the same dictionary twice is loading it once. */
  lemma {:induction false} FromJsonIdempotent(st: Settings, data: map<string, Json>)
    ensures FromJsonOf(FromJsonOf(st, data), data) == FromJsonOf(st, data)
  {
  }

  /**
   * `q.fromJson(p.toJson())` copies p's four written fields into q and keeps
   * every other field of q; loading an object's own dictionary changes nothing.
   */
  lemma {:induction false} JsonRoundTrip(p: Settings, q: Settings)
    ensures FromJsonOf(q, ToJsonOf(p)) == q.(spectreNetlist := p.spectreNetlist, hspiceNetlist := p.hspiceNetlist,
                                              simpleTechFile := p.simpleTechFile, resultDir := p.resultDir)
    ensures FromJsonOf(p, ToJsonOf(p)) == p
  {
  }

  /** A `Params` object. */
  class Params {
    var spectreNetlist: Json
    var hspiceNetlist: Json
    var simpleTechFile: Json
    var techfile: Json
    var lef: Json
    var vddNetNames: Json
    var vssNetNames: Json
    var digitalNetNames: seq<string>
    var stdCells: seq<string>
    var resultDir: Json
    var powerLayer: int
    var psubLayer: int
    var smallModuleAreaThreshold: int

    /** The current values of the fields. */
    function Snapshot(): Settings
      reads this
    {
      Settings(spectreNetlist, hspiceNetlist, simpleTechFile, techfile, lef, vddNetNames, vssNetNames,
               digitalNetNames, stdCells, resultDir, powerLayer, psubLayer, smallModuleAreaThreshold)
    }

    /** `__init__`: the default parameters; the power substrate layer follows the power layer. */
    constructor ()
      ensures Snapshot() == Defaults()
    {
      spectreNetlist := JNull;
      hspiceNetlist := JNull;
      simpleTechFile := JString("");
      techfile := JString("");
      lef := JString("");
      vddNetNames := StringList(["VDD", "vdd", "vdda", "vddd"]);
      vssNetNames := StringList(["VSS", "GND", "vss", "gnd", "vssa", "vssd"]);
      digitalNetNames := ["clk"];
      stdCells := ["SR_Latch_LVT", "NR2D8BWP_LVT", "BUFFD4BWP_LVT", "DFCND4BWP_LVT", "INVD4BWP_LVT", "DFCNQD2BWP_LVT", "DFCND4BWP_LVT_stupid"];
      resultDir := JNull;
      powerLayer := 6;
      psubLayer := powerLayer;
      smallModuleAreaThreshold := 60;
    }

    /** `toJson()`: a fresh dictionary of the four written fields. */
    function ToJson(): (data: map<string, Json>)
      reads this
      ensures data == ToJsonOf(Snapshot())
    {
      var data: map<string, Json> := map[];
      var data := data["spectre_netlist" := spectreNetlist];
      var data := data["hspice_netlist" := hspiceNetlist];
      var data := data["simple_tech_file" := simpleTechFile];
      data["resultDir" := resultDir]
    }

    /** `fromJson(data)`: each recognised key present in `data` overwrites its field. */
    method FromJson(data: map<string, Json>)
      modifies this
      ensures Snapshot() == FromJsonOf(old(Snapshot()), data)
    {
      ReadWrittenKeys(data);
      ReadTechKeys(data);
    }

    /** The first four statements of `fromJson`: the keys `toJson` writes. */
    method ReadWrittenKeys(data: map<string, Json>)
      modifies this
      ensures Snapshot() == old(Snapshot()).(
        spectreNetlist := Overwritten(data, "spectre_netlist", old(spectreNetlist)),
        hspiceNetlist := Overwritten(data, "hspice_netlist", old(hspiceNetlist)),
        simpleTechFile := Overwritten(data, "simple_tech_file", old(simpleTechFile)),
        resultDir := Overwritten(data, "resultDir", old(resultDir)))
    {
      spectreNetlist := Overwritten(data, "spectre_netlist", spectreNetlist);
      hspiceNetlist := Overwritten(data, "hspice_netlist", hspiceNetlist);
      simpleTechFile := Overwritten(data, "simple_tech_file", simpleTechFile);
      resultDir := Overwritten(data, "resultDir", resultDir);
    }

    /** The last four statements of `fromJson`: the technology files and the power net names. */
    method ReadTechKeys(data: map<string, Json>)
      modifies this
      ensures Snapshot() == old(Snapshot()).(
        lef := Overwritten(data, "lef", old(lef)),
        techfile := Overwritten(data, "techfile", old(techfile)),
        vddNetNames := Overwritten(data, "vddNetNames", old(vddNetNames)),
        vssNetNames := Overwritten(data, "vssNetNames", old(vssNetNames)))
    {
      lef := Overwritten(data, "lef", lef);
      techfile := Overwritten(data, "techfile", techfile);
      vddNetNames := Overwritten(data, "vddNetNames", vddNetNames);
      vssNetNames := Overwritten(data, "vssNetNames", vssNetNames);
    }
  }
}
