/** The option map of ramulator's `Config` (`Config.h`): lookups with their
    defaults, the insertion that never overwrites, the assignment that
    does, and the choice of the trace format from the trace's file name. */
module RamulatorConfig {
  import opened CString

  /** The trace formats ramulator reads. */
  datatype Format = Pisa | Zsim | Pin

  /** `options.find(name) != options.end()`. */
  predicate HasOption(options: map<string, string>, name: string) {
    name in options
  }

  /** `operator[]`: the value of `name`, the empty string when it is not set. */
  function Lookup(options: map<string, string>, name: string): (r: string)
    ensures HasOption(options, name) ==> r == options[name]
    ensures !HasOption(options, name) ==> r == ""
  {
    if name in options then options[name] else ""
  }

  /** The map after `add(name, value)`: a name already set keeps its value
      (the source only prints a message); a new name gets `value`; no other
      name changes. */
  function Added(options: map<string, string>, name: string, value: string): (r: map<string, string>)
    ensures r.Keys == options.Keys + {name}
    ensures forall k :: Lookup(r, k) == (if k == name && !HasOption(options, name) then value else Lookup(options, k))
  {
    if name in options then options else options[name := value]
  }

  /** `set_trace_format`: a file name containing "pisa" is a PISA trace,
      otherwise one containing "zsim" is a zsim trace, and anything else is
      a Pin trace. The first test wins when both words occur. */
  function FormatOf(trace: string): (f: Format)
    ensures f == Pisa <==> Contains(trace, "pisa")
    ensures f == Zsim <==> !Contains(trace, "pisa") && Contains(trace, "zsim")
    ensures f == Pin <==> !Contains(trace, "pisa") && !Contains(trace, "zsim")
  {
    if Contains(trace, "pisa") then Pisa
    else if Contains(trace, "zsim") then Zsim
    else Pin
  }

  /** `has_l3_cache`: the "cache" option is "all" or "L3"; false when unset. */
  function HasL3Cache(options: map<string, string>): (r: bool)
    ensures r <==> "cache" in options && (options["cache"] == "all" || options["cache"] == "L3")
    ensures !HasOption(options, "cache") ==> !r
  {
    var c := Lookup(options, "cache");
    c == "all" || c == "L3"
  }

  /** `has_core_caches`: the "cache" option is "all" or "L1L2"; false when
      unset. */
  function HasCoreCaches(options: map<string, string>): (r: bool)
    ensures r <==> "cache" in options && (options["cache"] == "all" || options["cache"] == "L1L2")
    ensures !HasOption(options, "cache") ==> !r
  {
    var c := Lookup(options, "cache");
    c == "all" || c == "L1L2"
  }

  /** `is_early_exit`: on unless the option is exactly "off". */
  function IsEarlyExit(options: map<string, string>): (r: bool)
    ensures !r <==> "early_exit" in options && options["early_exit"] == "off"
    ensures !HasOption(options, "early_exit") ==> r
  {
    !(HasOption(options, "early_exit") && options["early_exit"] == "off")
  }

  /** The default-off switches `record_cmd_trace` and `print_cmd_trace`:
      on exactly when the option is "on". */
  function Switch(options: map<string, string>, name: string): (r: bool)
    ensures r <==> name in options && options[name] == "on"
    ensures !HasOption(options, name) ==> !r
  {
    Lookup(options, name) == "on"
  }

  function RecordCmdTrace(options: map<string, string>): (r: bool)
    ensures r <==> "record_cmd_trace" in options && options["record_cmd_trace"] == "on"
  {
    Switch(options, "record_cmd_trace")
  }

  function PrintCmdTrace(options: map<string, string>): (r: bool)
    ensures r <==> "print_cmd_trace" in options && options["print_cmd_trace"] == "on"
  {
    Switch(options, "print_cmd_trace")
  }

  /** `get_expected_limit_insts`: the option read by `atoi`, 0 when unset
      (so `get_int_value` never meets a missing name here). */
  function ExpectedLimitInsts(options: map<string, string>): (r: int)
    ensures !HasOption(options, "expected_limit_insts") ==> r == 0
    ensures HasOption(options, "expected_limit_insts") ==> r == Atoi(options["expected_limit_insts"])
  {
    if HasOption(options, "expected_limit_insts") then Atoi(Lookup(options, "expected_limit_insts")) else 0
  }

  /** A limit written in decimal with `set` is the limit read back. */
  lemma ExpectedLimitRoundTrip(options: map<string, string>, n: int)
    ensures ExpectedLimitInsts(options["expected_limit_insts" := IntString(n)]) == n
  {
    AtoiRoundTrip(n);
  }

  /** A limit that is already set survives a later `add` of another value. */
  lemma ExpectedLimitKeptByAdd(options: map<string, string>, value: string)
    requires HasOption(options, "expected_limit_insts")
    ensures ExpectedLimitInsts(Added(options, "expected_limit_insts", value)) == ExpectedLimitInsts(options)
  {
  }

  /** The configuration an experiment runs with: the option map and the
      trace format. */
  class Config {
    var options: map<string, string>
    var format: Format

    /** `Config()`: no option is set; the format is not given a value. */
    constructor ()
      ensures options == map[]
    {
      options := map[];
      format := Pin;
    }

    /** `add`: inserts the option only when its name is not yet set. */
    method Add(name: string, value: string)
      modifies this
      ensures options == Added(old(options), name, value)
      ensures Lookup(options, name) == if HasOption(old(options), name) then Lookup(old(options), name) else value
      ensures format == old(format)
    {
      if !HasOption(options, name) {
        options := options[name := value];
      }
    }

    /** `set`: assigns the option whether or not it was set. */
    method Set(name: string, value: string)
      modifies this
      ensures options == old(options)[name := value]
      ensures Lookup(options, name) == value
      ensures forall k :: k != name ==> Lookup(options, k) == Lookup(old(options), k)
      ensures format == old(format)
    {
      options := options[name := value];
    }

    /** `set_trace_format`. */
    method SetTraceFormat(trace: string)
      modifies this
      ensures format == FormatOf(trace)
      ensures options == old(options)
    {
      if Contains(trace, "pisa") {
        format := Pisa;
      } else if Contains(trace, "zsim") {
        format := Zsim;
      } else {
        format := Pin;
      }
    }
  }
}
