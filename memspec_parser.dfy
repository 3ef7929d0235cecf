/** The SAX handler that reads a DRAMPower memory specification
    (`MemSpecParser.cc`). The handler keeps a pointer to the section the
    next `parameter` element belongs to; section elements select it and
    their end processes the section's parameters. Element attributes are a
    map from attribute name to value. */
module MemSpecParsing {
  import opened Common

  /** Where `parameterParent` points: nowhere before the first element,
      the whole specification, or one of its three sections. */
  datatype Parent = NoParent | TopSpec | ArchSpec | TimingSpec | PowerSpec

  /** One `parameter` element: its id, its type and its value. */
  datatype Parameter = Parameter(id: string, ptype: string, value: string)

  /** A parameter list owner. What `processParameters` derives from the
      list is not part of this model; since it depends only on the list,
      the list it was last run on stands for its outcome. */
  datatype Section = Section(params: seq<Parameter>, processedWith: Option<seq<Parameter>>)

  /** The memory specification with its three sections. */
  datatype Spec = Spec(top: Section, arch: Section, timing: Section, power: Section)

  /** The handler's fields. */
  datatype ParserState = ParserState(parent: Parent, spec: Spec)

  /** The events the XML reader delivers. */
  datatype Event = StartElement(name: string, attrs: map<string, string>) | EndElement(name: string)

  const EmptySection := Section([], None)
  const EmptySpec := Spec(EmptySection, EmptySection, EmptySection, EmptySection)

  /** The handler as constructed. */
  const Initial := ParserState(NoParent, EmptySpec)

  /** The section a section element names. */
  function SectionOf(name: string): (r: Option<Parent>)
    ensures r.Some? ==> r.value in {ArchSpec, TimingSpec, PowerSpec}
  {
    if name == "memarchitecturespec" then Some(ArchSpec)
    else if name == "memtimingspec" then Some(TimingSpec)
    else if name == "mempowerspec" then Some(PowerSpec)
    else None
  }

  /** The parameter a `parameter` element carries: "id" and "value" must be
      present (`getValue` asserts it), "type" defaults to "uint". */
  function ParameterOf(attrs: map<string, string>): (r: Option<Parameter>)
    ensures r.Some? <==> "id" in attrs && "value" in attrs
    ensures r.Some? ==> r.value.id == attrs["id"] && r.value.value == attrs["value"]
    ensures r.Some? ==> r.value.ptype == if "type" in attrs then attrs["type"] else "uint"
  {
    if "id" in attrs && "value" in attrs then
      Some(Parameter(attrs["id"], if "type" in attrs then attrs["type"] else "uint", attrs["value"]))
    else None
  }

  /** The parameter list `parent` points at. */
  function SectionAt(spec: Spec, parent: Parent): Section
    requires parent != NoParent
  {
    match parent
    case TopSpec => spec.top
    case ArchSpec => spec.arch
    case TimingSpec => spec.timing
    case PowerSpec => spec.power
  }

  /** `spec` with the list `parent` points at replaced by `s`. */
  function WithSection(spec: Spec, parent: Parent, s: Section): (r: Spec)
    requires parent != NoParent
    ensures SectionAt(r, parent) == s
    ensures forall q :: q != NoParent && q != parent ==> SectionAt(r, q) == SectionAt(spec, q)
  {
    match parent
    case TopSpec => spec.(top := s)
    case ArchSpec => spec.(arch := s)
    case TimingSpec => spec.(timing := s)
    case PowerSpec => spec.(power := s)
  }

  /** `pushParameter` on the list `parent` points at. */
  function Pushed(spec: Spec, parent: Parent, p: Parameter): (r: Spec)
    requires parent != NoParent
    ensures SectionAt(r, parent).params == SectionAt(spec, parent).params + [p]
    ensures SectionAt(r, parent).processedWith == SectionAt(spec, parent).processedWith
    ensures forall q :: q != NoParent && q != parent ==> SectionAt(r, q) == SectionAt(spec, q)
  {
    var s := SectionAt(spec, parent);
    WithSection(spec, parent, s.(params := s.params + [p]))
  }

  /** `processParameters` on the list `parent` points at. */
  function Processed(spec: Spec, parent: Parent): (r: Spec)
    requires parent != NoParent
    ensures SectionAt(r, parent).params == SectionAt(spec, parent).params
    ensures SectionAt(r, parent).processedWith == Some(SectionAt(spec, parent).params)
    ensures forall q :: q != NoParent && q != parent ==> SectionAt(r, q) == SectionAt(spec, q)
  {
    var s := SectionAt(spec, parent);
    WithSection(spec, parent, s.(processedWith := Some(s.params)))
  }

  /** `startElement`: "memspec" and the section elements select where the
      following parameters go; "parameter" appends to the selected list, and
      fails when nothing is selected or an attribute it needs is missing;
      every other element changes nothing. */
  function Start(s: ParserState, name: string, attrs: map<string, string>): (r: Result<ParserState>)
    ensures r.Fail? <==> name == "parameter" && (ParameterOf(attrs).None? || s.parent == NoParent)
    ensures r.Ok? && name != "parameter" ==> r.value.spec == s.spec
    ensures r.Ok? && name == "memspec" ==> r.value.parent == TopSpec
    ensures r.Ok? && SectionOf(name).Some? ==> r.value.parent == SectionOf(name).value
    ensures r.Ok? && name == "parameter" ==>
              r.value.parent == s.parent && r.value.spec == Pushed(s.spec, s.parent, ParameterOf(attrs).value)
    ensures name != "memspec" && SectionOf(name).None? && name != "parameter" ==> r == Ok(s)
  {
    if name == "memspec" then Ok(s.(parent := TopSpec))
    else if SectionOf(name).Some? then Ok(s.(parent := SectionOf(name).value))
    else if name == "parameter" then
      match ParameterOf(attrs)
      case None => Fail("parameter attribute missing")
      case Some(p) =>
        if s.parent == NoParent then Fail("parameter outside a memory specification")
        else Ok(s.(spec := Pushed(s.spec, s.parent, p)))
    else Ok(s)
  }

  /** `endElement`: the end of a section processes that section and points
      back at the whole specification; the end of "memspec" processes the
      top-level list and leaves the pointer; every other element changes
      nothing. */
  function End(s: ParserState, name: string): (r: ParserState)
    ensures SectionOf(name).Some? ==> r == ParserState(TopSpec, Processed(s.spec, SectionOf(name).value))
    ensures name == "memspec" ==> r == ParserState(s.parent, Processed(s.spec, TopSpec))
    ensures name != "memspec" && SectionOf(name).None? ==> r == s
  {
    match SectionOf(name)
    case Some(q) => ParserState(TopSpec, Processed(s.spec, q))
    case None => if name == "memspec" then s.(spec := Processed(s.spec, TopSpec)) else s
  }

  /** The handler driven by a sequence of events, stopping at the first
      failed assertion. */
  function Run(s: ParserState, events: seq<Event>): Result<ParserState>
    decreases |events|
  {
    if events == [] then Ok(s)
    else
      var next := match events[0]
        case StartElement(name, attrs) => Start(s, name, attrs)
        case EndElement(name) => Ok(End(s, name));
      match next
      case Fail(e) => Fail(e)
      case Ok(t) => Run(t, events[1..])
  }

  // ---------------------------------------------------------------------
  // Documents

  /** A `parameter` element: its start and its end. */
  function ParamEvents(attrs: seq<map<string, string>>): seq<Event> {
    if attrs == [] then [] else [StartElement("parameter", attrs[0]), EndElement("parameter")] + ParamEvents(attrs[1..])
  }

  /** The parameters a list of `parameter` elements carries, each of which
      has its "id" and "value". */
  function Params(attrs: seq<map<string, string>>): (ps: seq<Parameter>)
    requires forall k :: 0 <= k < |attrs| ==> "id" in attrs[k] && "value" in attrs[k]
    ensures |ps| == |attrs|
    ensures forall k :: 0 <= k < |attrs| ==> Some(ps[k]) == ParameterOf(attrs[k])
  {
    if attrs == [] then [] else [ParameterOf(attrs[0]).value] + Params(attrs[1..])
  }

  /** An element named `name` holding parameter elements. */
  function SectionEvents(name: string, attrs: seq<map<string, string>>): seq<Event> {
    [StartElement(name, map[])] + ParamEvents(attrs) + [EndElement(name)]
  }

  /** Running two event sequences one after the other. */
  lemma {:induction false} RunAppend(s: ParserState, e1: seq<Event>, e2: seq<Event>)
    ensures Run(s, e1 + e2) == match Run(s, e1) case Ok(t) => Run(t, e2) case Fail(e) => Fail(e)
    decreases |e1|
  {
    if e1 != [] {
      assert (e1 + e2)[0] == e1[0];
      assert (e1 + e2)[1..] == e1[1..] + e2;
      var next := match e1[0]
        case StartElement(name, attrs) => Start(s, name, attrs)
        case EndElement(name) => Ok(End(s, name));
      if next.Ok? {
        RunAppend(next.value, e1[1..], e2);
      }
    } else {
      assert e1 + e2 == e2;
    }
  }

  /** `spec` with `ps` appended to the list `q` names. */
  function Appended(spec: Spec, q: Parent, ps: seq<Parameter>): Spec
    requires q != NoParent
  {
    var sec := SectionAt(spec, q);
    WithSection(spec, q, sec.(params := sec.params + ps))
  }

  /** Appending twice to one list is appending the concatenation. */
  lemma AppendedTwice(spec: Spec, q: Parent, ps1: seq<Parameter>, ps2: seq<Parameter>)
    requires q != NoParent
    ensures Appended(Appended(spec, q, ps1), q, ps2) == Appended(spec, q, ps1 + ps2)
  {
    var sec := SectionAt(spec, q);
    assert sec.params + ps1 + ps2 == sec.params + (ps1 + ps2);
  }

  /** Parameter elements under a selected list are appended to it in
      document order, and nothing else changes. */
  lemma {:induction false} RunParams(s: ParserState, attrs: seq<map<string, string>>)
    requires s.parent != NoParent
    requires forall k :: 0 <= k < |attrs| ==> "id" in attrs[k] && "value" in attrs[k]
    ensures Run(s, ParamEvents(attrs)) == Ok(s.(spec := Appended(s.spec, s.parent, Params(attrs))))
    decreases |attrs|
  {
    if attrs == [] {
      var sec := SectionAt(s.spec, s.parent);
      assert sec.params + [] == sec.params;
      SpecExt(Appended(s.spec, s.parent, []), s.spec);
    } else {
      var p := ParameterOf(attrs[0]).value;
      var t := s.(spec := Pushed(s.spec, s.parent, p));
      var two := [StartElement("parameter", attrs[0]), EndElement("parameter")];
      assert ParamEvents(attrs) == two + ParamEvents(attrs[1..]);
      RunParamElement(s, attrs[0]);
      RunAppend(s, two, ParamEvents(attrs[1..]));
      RunParams(t, attrs[1..]);
      assert Pushed(s.spec, s.parent, p) == Appended(s.spec, s.parent, [p]);
      AppendedTwice(s.spec, s.parent, [p], Params(attrs[1..]));
      assert Params(attrs) == [p] + Params(attrs[1..]);
    }
  }

  /** One parameter element under a selected list appends its parameter. */
  lemma RunParamElement(s: ParserState, attrs: map<string, string>)
    requires s.parent != NoParent
    requires "id" in attrs && "value" in attrs
    ensures Run(s, [StartElement("parameter", attrs), EndElement("parameter")])
         == Ok(s.(spec := Pushed(s.spec, s.parent, ParameterOf(attrs).value)))
  {
    var two := [StartElement("parameter", attrs), EndElement("parameter")];
    var t := s.(spec := Pushed(s.spec, s.parent, ParameterOf(attrs).value));
    assert two[1..] == [EndElement("parameter")];
    assert End(t, "parameter") == t;
    assert Run(t, [EndElement("parameter")][1..]) == Ok(t);
  }

  /** A section element inside the specification collects exactly its own
      parameters, processes them at its end and points back at the whole
      specification; the other lists are left alone. */
  lemma RunSection(s: ParserState, name: string, attrs: seq<map<string, string>>)
    requires s.parent != NoParent && SectionOf(name).Some?
    requires forall k :: 0 <= k < |attrs| ==> "id" in attrs[k] && "value" in attrs[k]
    ensures Run(s, SectionEvents(name, attrs)).Ok?
    ensures var q := SectionOf(name).value;
            var old_ := SectionAt(s.spec, q);
            Run(s, SectionEvents(name, attrs)).value
              == ParserState(TopSpec, WithSection(s.spec, q, Section(old_.params + Params(attrs), Some(old_.params + Params(attrs)))))
  {
    var q := SectionOf(name).value;
    var t := s.(parent := q);
    assert Run(s, [StartElement(name, map[])]) == Ok(t) by {
      assert Run(t, [StartElement(name, map[])][1..]) == Ok(t);
    }
    RunAppend(s, [StartElement(name, map[])], ParamEvents(attrs));
    RunParams(t, attrs);
    var u := t.(spec := Appended(s.spec, q, Params(attrs)));
    RunAppend(s, [StartElement(name, map[])] + ParamEvents(attrs), [EndElement(name)]);
    assert Run(u, [EndElement(name)]) == Ok(End(u, name)) by {
      assert Run(End(u, name), [EndElement(name)][1..]) == Ok(End(u, name));
    }
    var all := SectionAt(s.spec, q).params + Params(attrs);
    SpecExt(Processed(u.spec, q), WithSection(s.spec, q, Section(all, Some(all))));
  }

  /** Two specifications with the same four lists are equal. */
  lemma SpecExt(a: Spec, b: Spec)
    requires forall q :: q != NoParent ==> SectionAt(a, q) == SectionAt(b, q)
    ensures a == b
  {
    assert SectionAt(a, TopSpec) == SectionAt(b, TopSpec);
    assert SectionAt(a, ArchSpec) == SectionAt(b, ArchSpec);
    assert SectionAt(a, TimingSpec) == SectionAt(b, TimingSpec);
    assert SectionAt(a, PowerSpec) == SectionAt(b, PowerSpec);
  }

  /** Every parameter of `attrs` carries its "id" and "value". */
  predicate Complete(attrs: seq<map<string, string>>) {
    forall k :: 0 <= k < |attrs| ==> "id" in attrs[k] && "value" in attrs[k]
  }

  /** The events of a document whose "memspec" element holds the three
      sections in the usual order. */
  function Document(arch: seq<map<string, string>>, timing: seq<map<string, string>>,
                    power: seq<map<string, string>>): seq<Event> {
    [StartElement("memspec", map[])]
      + SectionEvents("memarchitecturespec", arch)
      + SectionEvents("memtimingspec", timing)
      + SectionEvents("mempowerspec", power)
      + [EndElement("memspec")]
  }

  /** The three sections one after the other, read from the top-level
      list. */
  lemma RunSections(arch: seq<map<string, string>>, timing: seq<map<string, string>>,
                    power: seq<map<string, string>>)
    requires Complete(arch) && Complete(timing) && Complete(power)
    ensures Run(ParserState(TopSpec, EmptySpec),
                SectionEvents("memarchitecturespec", arch) + SectionEvents("memtimingspec", timing)
                + SectionEvents("mempowerspec", power))
         == Ok(ParserState(TopSpec, Spec(EmptySection,
                                         Section(Params(arch), Some(Params(arch))),
                                         Section(Params(timing), Some(Params(timing))),
                                         Section(Params(power), Some(Params(power))))))
  {
    var ea := SectionEvents("memarchitecturespec", arch);
    var et := SectionEvents("memtimingspec", timing);
    var ep := SectionEvents("mempowerspec", power);
    var s0 := ParserState(TopSpec, EmptySpec);
    var A := Section(Params(arch), Some(Params(arch)));
    var T := Section(Params(timing), Some(Params(timing)));
    var P := Section(Params(power), Some(Params(power)));
    var sa := ParserState(TopSpec, Spec(EmptySection, A, EmptySection, EmptySection));
    var st := ParserState(TopSpec, Spec(EmptySection, A, T, EmptySection));
    var sp := ParserState(TopSpec, Spec(EmptySection, A, T, P));
    assert Run(s0, ea) == Ok(sa) by {
      RunSection(s0, "memarchitecturespec", arch);
      assert SectionAt(s0.spec, ArchSpec).params + Params(arch) == Params(arch);
    }
    assert Run(sa, et) == Ok(st) by {
      RunSection(sa, "memtimingspec", timing);
      assert SectionAt(sa.spec, TimingSpec).params + Params(timing) == Params(timing);
    }
    assert Run(st, ep) == Ok(sp) by {
      RunSection(st, "mempowerspec", power);
      assert SectionAt(st.spec, PowerSpec).params + Params(power) == Params(power);
    }
    RunAppend(s0, ea, et);
    RunAppend(s0, ea + et, ep);
  }

  /** Reading such a document gives each section exactly its own
      parameters, processed, and processes the (empty) top-level list. */
  lemma RunDocument(arch: seq<map<string, string>>, timing: seq<map<string, string>>,
                    power: seq<map<string, string>>)
    requires Complete(arch) && Complete(timing) && Complete(power)
    ensures Run(Initial, Document(arch, timing, power))
         == Ok(ParserState(TopSpec, Spec(Section([], Some([])),
                                         Section(Params(arch), Some(Params(arch))),
                                         Section(Params(timing), Some(Params(timing))),
                                         Section(Params(power), Some(Params(power))))))
  {
    var e0 := [StartElement("memspec", map[])];
    var body := SectionEvents("memarchitecturespec", arch) + SectionEvents("memtimingspec", timing)
                + SectionEvents("mempowerspec", power);
    var eEnd := [EndElement("memspec")];
    assert Document(arch, timing, power) == e0 + body + eEnd;
    var s0 := ParserState(TopSpec, EmptySpec);
    assert Run(Initial, e0) == Ok(s0) by {
      assert Run(s0, e0[1..]) == Ok(s0);
    }
    RunSections(arch, timing, power);
    var sp := Run(s0, body).value;
    var final := ParserState(TopSpec, sp.spec.(top := Section([], Some([]))));
    assert Run(sp, eEnd) == Ok(final) by {
      assert End(sp, "memspec") == final;
      assert Run(final, eEnd[1..]) == Ok(final);
    }
    RunAppend(Initial, e0, body);
    RunAppend(Initial, e0 + body, eEnd);
  }

  /** A parameter before any element has selected a list fails the
      handler's assertion. */
  lemma ParameterFirstFails(attrs: map<string, string>, rest: seq<Event>)
    ensures Run(Initial, [StartElement("parameter", attrs)] + rest).Fail?
  {
    assert ([StartElement("parameter", attrs)] + rest)[0] == StartElement("parameter", attrs);
  }

  /** The handler object. */
  class MemSpecParser {
    var parent: Parent
    var spec: Spec

    /** `MemSpecParser()`: nothing selected, an empty specification. */
    constructor ()
      ensures parent == NoParent && spec == EmptySpec
    {
      parent := NoParent;
      spec := EmptySpec;
    }

    /** `startElement`; `ok` is false where the source's assertion fails. */
    method StartElementOf(name: string, attrs: map<string, string>) returns (ok: bool)
      modifies this
      ensures ok == Start(old(ParserState(parent, spec)), name, attrs).Ok?
      ensures ok ==> ParserState(parent, spec) == Start(old(ParserState(parent, spec)), name, attrs).value
    {
      if name == "memspec" {
        parent := TopSpec;
      } else if name == "memarchitecturespec" {
        parent := ArchSpec;
      } else if name == "memtimingspec" {
        parent := TimingSpec;
      } else if name == "mempowerspec" {
        parent := PowerSpec;
      } else if name == "parameter" {
        if !("id" in attrs && "value" in attrs) || parent == NoParent {
          return false;
        }
        var p := Parameter(attrs["id"], if "type" in attrs then attrs["type"] else "uint", attrs["value"]);
        spec := Pushed(spec, parent, p);
      }
      return true;
    }

    /** `endElement`. */
    method EndElementOf(name: string)
      modifies this
      ensures ParserState(parent, spec) == End(old(ParserState(parent, spec)), name)
    {
      if name == "memarchitecturespec" {
        spec := Processed(spec, ArchSpec);
        parent := TopSpec;
      } else if name == "memtimingspec" {
        spec := Processed(spec, TimingSpec);
        parent := TopSpec;
      } else if name == "mempowerspec" {
        spec := Processed(spec, PowerSpec);
        parent := TopSpec;
      } else if name == "memspec" {
        spec := Processed(spec, TopSpec);
      }
    }
  }
}
