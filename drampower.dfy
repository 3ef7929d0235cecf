/** The command-line front end of DRAMPower (`drampower.cc`): the scan of
    the argument vector, the validation of the options against the memory
    specification, and the request size and burst count derived from them.
    Every failure ends in the usage message and exit status 1, modelled as
    `Fail`; the power analysis itself is not part of this model. */
module DramPowerCli {
  import opened Common
  import opened CString

  /** The local variables `main` sets while it scans its arguments. The
      three `char*` paths start as null pointers, here `None`. */
  datatype Options = Options(
    trans: bool, cmds: bool, memory: bool, size: bool, term: bool, powerDown: int,
    bankwiseMode: bool, bankPasrAct: bool, rho: nat, sigma: nat, pasrMode: nat,
    srcTrans: Option<string>, srcCmds: Option<string>, srcMemory: Option<string>,
    interleaving: int, grouping: int, srcSize: int)

  /** The initial values of those variables. */
  const Defaults: Options :=
    Options(false, false, false, false, false, 0, false, false, 100, 100, 0, None, None, None, 1, 1, 1)

  /** The fields of the memory architecture specification `main` looks at. */
  datatype ArchSpec = ArchSpec(nbrOfBanks: int, nbrOfBankGroups: int, burstLength: int, width: int,
                               twoVoltageDomains: bool)

  /** The bankwise parameters handed to the power model. */
  datatype BankWise = BankWise(rho: nat, sigma: nat, pasrAct: bool, pasrMode: nat, mode: bool)

  /** What an accepted command line asks the trace parser and the power
      model to do. */
  datatype Plan = Plan(trans: bool, trace: string, memSpec: string, grouping: int, interleaving: int,
                       minSize: int, srcSize: int, burst: int, powerDown: int, term: bool, bankwise: BankWise)

  /** `s.find(c)`, `None` standing for `npos`. */
  function IndexOf(s: string, c: char): (r: Option<nat>)
    ensures r.Some? ==> r.value < |s| && s[r.value] == c && c !in s[..r.value]
    ensures r.None? ==> c !in s
  {
    if s == [] then None
    else if s[0] == c then Some(0)
    else match IndexOf(s[1..], c) {
      case None => None
      case Some(i) => assert s[..i + 1] == [s[0]] + s[1..][..i]; Some(i + 1)
    }
  }

  /** The first occurrence of `c` is the one `IndexOf` finds. */
  lemma {:induction false} IndexOfFirst(s: string, c: char, k: nat)
    requires k < |s| && s[k] == c && c !in s[..k]
    ensures IndexOf(s, c) == Some(k)
  {
    if k > 0 {
      assert s[0] == s[..k][0];
      assert s[1..][..k - 1] == s[..k][1..];
      IndexOfFirst(s[1..], c, k - 1);
    }
  }

  /** The text before the first comma of `t`, all of `t` when it has none. */
  function UpToComma(t: string): (r: string)
    ensures ',' !in t ==> r == t
  {
    match IndexOf(t, ',')
    case None => t
    case Some(k) => t[..k]
  }

  /** The text after the first comma of `t`, all of `t` when it has none. */
  function AfterComma(t: string): (r: string)
    ensures ',' !in t ==> r == t
  {
    match IndexOf(t, ',')
    case None => t
    case Some(k) => t[k + 1..]
  }

  /** The two pieces of "a,b" in which `a` holds no comma. */
  lemma CommaPieces(a: string, b: string)
    requires ',' !in a
    ensures UpToComma(a + "," + b) == a && AfterComma(a + "," + b) == b
  {
    var t := a + "," + b;
    assert t[..|a|] == a;
    IndexOfFirst(t, ',', |a|);
    assert t[|a| + 1..] == b;
  }

  /** The `-b` value "rho,sigma": rho is read up to the first comma; the
      text after that comma (all of it when there is none, since erasing
      up to `npos + 1` erases nothing) is read up to its own first comma
      as sigma. Each is read by `std::stoi` and cast to `unsigned`; a
      value `stoi` rejects makes `main` fail. */
  function ParseBankwise(t: string): (r: Result<(nat, nat)>)
    ensures r.Fail? <==> StoI(UpToComma(t)).None? || StoI(UpToComma(AfterComma(t))).None?
    ensures r.Ok? ==> r.value.0 < TWO_32 && r.value.1 < TWO_32
    ensures r.Ok? ==>
              && r.value.0 == Wrap32(StoI(UpToComma(t)).value)
              && r.value.1 == Wrap32(StoI(UpToComma(AfterComma(t))).value)
  {
    match StoI(UpToComma(t)) {
      case None => Fail("bankwise factor rho is not a number")
      case Some(rho) =>
        match StoI(UpToComma(AfterComma(t))) {
          case None => Fail("bankwise factor sigma is not a number")
          case Some(sigma) => Ok((Wrap32(rho), Wrap32(sigma)))
        }
    }
  }

  /** The flags `main` recognises. */
  datatype Flag = TransFlag | CmdsFlag | MemoryFlag | InterleavingFlag | GroupingFlag | SizeFlag
                | PowerDownFlag | BankwiseFlag | PasrFlag | TermFlag | OtherArg

  /** Which flag an argument spells. */
  function FlagOf(a: string): (f: Flag)
    ensures f == MemoryFlag <==> a == "-m"
    ensures f == TermFlag <==> a == "-r"
    ensures f == TransFlag <==> a == "-t"
    ensures f == CmdsFlag <==> a == "-c"
    ensures f == BankwiseFlag <==> a == "-b"
    ensures f == PasrFlag <==> a == "-pasr"
  {
    if a == "-t" then TransFlag
    else if a == "-c" then CmdsFlag
    else if a == "-m" then MemoryFlag
    else if a == "-i" then InterleavingFlag
    else if a == "-g" then GroupingFlag
    else if a == "-s" then SizeFlag
    else if a == "-p" then PowerDownFlag
    else if a == "-b" then BankwiseFlag
    else if a == "-pasr" then PasrFlag
    else if a == "-r" then TermFlag
    else OtherArg
  }

  /** One iteration of the argument loop at position `i`. A flag that takes
      a value is recognised only when an argument follows it; the value is
      not skipped, so it is examined as a flag itself at the next
      position. `-r` is recognised wherever it stands. */
  function StepArg(argv: seq<string>, i: nat, o: Options): (r: Result<Options>)
    requires i < |argv|
    ensures r.Ok? ==> r.value.term == (o.term || argv[i] == "-r")
    ensures r.Ok? ==> r.value.memory == (o.memory || (argv[i] == "-m" && i + 1 < |argv|))
    ensures r.Ok? && o.trans == o.srcTrans.Some? && o.cmds == o.srcCmds.Some? && o.memory == o.srcMemory.Some? ==>
              r.value.trans == r.value.srcTrans.Some? && r.value.cmds == r.value.srcCmds.Some?
              && r.value.memory == r.value.srcMemory.Some?
    ensures r.Fail? <==> argv[i] == "-b" && i + 1 < |argv| && ParseBankwise(argv[i + 1]).Fail?
  {
    var f := FlagOf(argv[i]);
    if f == TermFlag then Ok(o.(term := true))
    else if i + 1 == |argv| then Ok(o)
    else
      var v := argv[i + 1];
      match f
      case TransFlag => Ok(o.(srcTrans := Some(v), trans := true))
      case CmdsFlag => Ok(o.(srcCmds := Some(v), cmds := true))
      case MemoryFlag => Ok(o.(srcMemory := Some(v), memory := true))
      case InterleavingFlag => Ok(o.(interleaving := Atoi(v)))
      case GroupingFlag => Ok(o.(grouping := Atoi(v)))
      case SizeFlag => Ok(o.(srcSize := Atoi(v), size := true))
      case PowerDownFlag => Ok(o.(powerDown := Atoi(v)))
      case BankwiseFlag =>
        (match ParseBankwise(v)
         case Fail(e) => Fail(e)
         case Ok(b) => Ok(o.(bankwiseMode := true, rho := b.0, sigma := b.1)))
      case PasrFlag => Ok(o.(pasrMode := Wrap32(Atoi(v)), bankPasrAct := true))
      case OtherArg => Ok(o)
  }

  /** The argument loop from position `i` on, stopping at the first
      failure. */
  function ScanArgs(argv: seq<string>, i: nat, o: Options): Result<Options>
    decreases |argv| - i
  {
    if i >= |argv| then Ok(o)
    else match StepArg(argv, i, o) {
      case Fail(e) => Fail(e)
      case Ok(o') => ScanArgs(argv, i + 1, o')
    }
  }

  /** The body of the `for` loop of `main` at position `i`: the statements
      whose one-step result `StepArg` defines. */
  method ApplyArg(argv: seq<string>, i: nat, o: Options) returns (r: Result<Options>)
    requires i < |argv|
    ensures r == StepArg(argv, i, o)
  {
    var f := FlagOf(argv[i]);
    if f == TermFlag {
      return Ok(o.(term := true));
    }
    if i + 1 == |argv| {
      return Ok(o);
    }
    var v := argv[i + 1];
    match f {
      case TransFlag => r := Ok(o.(srcTrans := Some(v), trans := true));
      case CmdsFlag => r := Ok(o.(srcCmds := Some(v), cmds := true));
      case MemoryFlag => r := Ok(o.(srcMemory := Some(v), memory := true));
      case InterleavingFlag => r := Ok(o.(interleaving := Atoi(v)));
      case GroupingFlag => r := Ok(o.(grouping := Atoi(v)));
      case SizeFlag => r := Ok(o.(srcSize := Atoi(v), size := true));
      case PowerDownFlag => r := Ok(o.(powerDown := Atoi(v)));
      case BankwiseFlag =>
        var b := ParseBankwise(v);
        if b.Fail? {
          return Fail(b.reason);
        }
        r := Ok(o.(bankwiseMode := true, rho := b.value.0, sigma := b.value.1));
      case PasrFlag => r := Ok(o.(pasrMode := Wrap32(Atoi(v)), bankPasrAct := true));
      case OtherArg => r := Ok(o);
    }
  }

  /** The `for` loop of `main` over `argv[1..]`, which gives up at the
      first value `-b` cannot read. */
  method ParseArgs(argv: seq<string>) returns (r: Result<Options>)
    ensures r == ScanArgs(argv, 1, Defaults)
  {
    var o := Defaults;
    var i := 1;
    while i < |argv|
      invariant 1 <= i
      invariant ScanArgs(argv, 1, Defaults) == ScanArgs(argv, i, o)
      decreases |argv| - i
    {
      var step := ApplyArg(argv, i, o);
      if step.Fail? {
        return step;
      }
      o := step.value;
      i := i + 1;
    }
    return Ok(o);
  }

  /** The trace `main` opens first: the transactions trace when `-t` was
      given, the commands trace otherwise; a path never given (a null
      pointer) does not open. */
  predicate TraceOpens(o: Options, opens: string -> bool) {
    if o.trans then o.srcTrans.Some? && opens(o.srcTrans.value)
    else o.srcCmds.Some? && opens(o.srcCmds.value)
  }

  /** The minimum request size: interleaving times grouping times the
      burst length times the width, in bytes. */
  function MinSize(o: Options, arch: ArchSpec): int {
    CDiv(o.interleaving * o.grouping * arch.burstLength * arch.width, 8)
  }

  /** The checks `main` makes before it reads the memory specification:
      the factor ranges, the PASR mode, a memory specification given and
      the trace opening. */
  predicate OptionsInRange(o: Options, opens: string -> bool) {
    && o.rho <= 100 && o.sigma <= 100 && o.pasrMode <= 7
    && o.memory
    && TraceOpens(o, opens)
  }

  /** The checks `main` makes against the memory architecture and among
      the options themselves. */
  predicate FitsArch(o: Options, arch: ArchSpec) {
    && !(arch.twoVoltageDomains && o.bankwiseMode)
    && o.interleaving <= arch.nbrOfBanks
    && o.grouping <= arch.nbrOfBankGroups
    && o.powerDown <= 2
    && (o.bankPasrAct ==> o.bankwiseMode)
  }

  /** Every check `main` makes before the analysis, the division by the
      minimum size last. */
  predicate Accepted(o: Options, arch: ArchSpec, opens: string -> bool) {
    OptionsInRange(o, opens) && FitsArch(o, arch) && MinSize(o, arch) != 0
  }

  /** The first of the checks of `OptionsInRange` that fails, with its
      message. */
  method CheckOptions(o: Options, opens: string -> bool) returns (err: Option<string>)
    ensures err.None? <==> OptionsInRange(o, opens)
  {
    if o.rho > 100 {
      return Some("ACT Standby bankwise power offset factor rho out of range");
    }
    if o.sigma > 100 {
      return Some("Self-Refresh bankwise power offset factor sigma out of range");
    }
    if o.pasrMode > 7 {
      return Some("Wrong PASR mode");
    }
    if !o.memory {
      return Some("No DRAM memory specified");
    }
    if o.trans {
      if o.srcTrans.None? || !opens(o.srcTrans.value) {
        return Some("Transactions trace file not found");
      }
    } else {
      if o.srcCmds.None? || !opens(o.srcCmds.value) {
        return Some("Commands trace file not found");
      }
    }
    return None;
  }

  /** The first of the checks of `FitsArch` that fails, with its message. */
  method CheckArch(o: Options, arch: ArchSpec) returns (err: Option<string>)
    ensures err.None? <==> FitsArch(o, arch)
  {
    if arch.twoVoltageDomains && o.bankwiseMode {
      return Some("Bankwise simulation for Two-Voltage domain devices not supported");
    }
    if o.interleaving > arch.nbrOfBanks {
      return Some("Interleaving > Number of Banks");
    }
    if o.grouping > arch.nbrOfBankGroups {
      return Some("Grouping > Number of Bank Groups");
    }
    if o.powerDown > 2 {
      return Some("Incorrect power-down option");
    }
    if !o.bankwiseMode && o.bankPasrAct {
      return Some("PASR cannot be activated when Bankwise mode is disabled");
    }
    return None;
  }

  /** The options a scan produces: a path is given exactly when its flag
      is set. */
  predicate PathsGiven(o: Options) {
    o.trans == o.srcTrans.Some? && o.cmds == o.srcCmds.Some? && o.memory == o.srcMemory.Some?
  }

  /** The part of `main` after the argument loop: the ranges and the
      consistency of the options are checked in order, and the request
      size and the burst count are derived. The memory architecture is the
      one the parser read from the `-m` file; whether a trace file opens
      is the parameter `opens`. */
  method Configure(o: Options, arch: ArchSpec, opens: string -> bool) returns (r: Result<Plan>)
    requires PathsGiven(o)
    ensures r.Ok? <==> Accepted(o, arch, opens)
    ensures r.Ok? ==>
              var min := MinSize(o, arch);
              && r.value.minSize == min
              && r.value.srcSize == (if o.size then Max(min, o.srcSize) else min)
              && r.value.burst == CDiv(r.value.srcSize, min)
              && r.value.trans == o.trans
              && r.value.trace == (if o.trans then o.srcTrans.value else o.srcCmds.value)
              && r.value.memSpec == o.srcMemory.value
              && r.value.interleaving == o.interleaving && r.value.grouping == o.grouping
              && r.value.powerDown == o.powerDown && r.value.term == o.term
              && r.value.bankwise == BankWise(o.rho, o.sigma, o.bankPasrAct, o.pasrMode, o.bankwiseMode)
    ensures r.Ok? && r.value.minSize > 0 ==> r.value.burst >= 1
  {
    var err := CheckOptions(o, opens);
    if err.Some? {
      return Fail(err.value);
    }
    err := CheckArch(o, arch);
    if err.Some? {
      return Fail(err.value);
    }
    var minSize := CDiv(o.interleaving * o.grouping * arch.burstLength * arch.width, 8);
    var srcSize := o.srcSize;
    if !o.size {
      srcSize := minSize;
    } else {
      srcSize := Max(minSize, srcSize);
    }
    if minSize == 0 {
      return Fail("division by zero");
    }
    var burst := CDiv(srcSize, minSize);
    if minSize > 0 {
      BurstPositive(srcSize, minSize);
    }
    var trace := if o.trans then o.srcTrans.value else o.srcCmds.value;
    var bw := BankWise(o.rho, o.sigma, o.bankPasrAct, o.pasrMode, o.bankwiseMode);
    return Ok(Plan(o.trans, trace, o.srcMemory.value, o.grouping, o.interleaving, minSize, srcSize, burst,
                   o.powerDown, o.term, bw));
  }

  /** `main` up to the power analysis: the argument loop, then the checks
      and the derived sizes of `Configure`. A run that gets this far names
      a memory specification, and the trace it reads was given with `-t`
      or `-c`. */
  method CommandLine(argv: seq<string>, arch: ArchSpec, opens: string -> bool) returns (r: Result<Plan>)
    ensures r.Ok? <==> ScanArgs(argv, 1, Defaults).Ok? && Accepted(ScanArgs(argv, 1, Defaults).value, arch, opens)
    ensures r.Ok? ==> var o := ScanArgs(argv, 1, Defaults).value; o.memory && (o.trans || o.cmds)
    ensures r.Ok? ==> exists j :: 1 <= j < |argv| - 1 && argv[j] == "-m"
  {
    var scanned := ParseArgs(argv);
    if scanned.Fail? {
      return Fail(scanned.reason);
    }
    ScanPaths(argv, 1, Defaults);
    ScanMemory(argv, 1, Defaults);
    r := Configure(scanned.value, arch, opens);
  }

  /** A request at least one minimum size long is at least one burst. */
  lemma BurstPositive(srcSize: int, minSize: int)
    requires 0 < minSize <= srcSize
    ensures CDiv(srcSize, minSize) >= 1
  {
  }

  // ---------------------------------------------------------------------
  // Properties of the argument scan

  /** A path is given exactly when its flag was seen with a value, so the
      memory path is present whenever `memory` is set. */
  lemma {:induction false} ScanPaths(argv: seq<string>, i: nat, o: Options)
    requires o.trans == o.srcTrans.Some? && o.cmds == o.srcCmds.Some? && o.memory == o.srcMemory.Some?
    ensures ScanArgs(argv, i, o).Ok? ==>
              var p := ScanArgs(argv, i, o).value;
              p.trans == p.srcTrans.Some? && p.cmds == p.srcCmds.Some? && p.memory == p.srcMemory.Some?
    decreases |argv| - i
  {
    if i < |argv| {
      var s := StepArg(argv, i, o);
      if s.Ok? {
        ScanPaths(argv, i + 1, s.value);
      }
    }
  }

  /** `-m` counts only when an argument follows it: a successful scan has a
      memory specification exactly when some `-m` before the last argument
      was seen. Without one `main` fails, as it does with no argument at
      all. */
  lemma {:induction false} ScanMemory(argv: seq<string>, i: nat, o: Options)
    ensures ScanArgs(argv, i, o).Ok? ==>
              (ScanArgs(argv, i, o).value.memory <==> o.memory || exists j :: i <= j < |argv| - 1 && argv[j] == "-m")
    decreases |argv| - i
  {
    if i < |argv| {
      var s := StepArg(argv, i, o);
      if s.Ok? {
        ScanMemory(argv, i + 1, s.value);
        if ScanArgs(argv, i, o).Ok? && s.value.memory != o.memory {
          assert argv[i] == "-m" && i < |argv| - 1;
        }
      }
    }
  }

  /** `-r` switches termination power on wherever it stands, the last
      position included. */
  lemma {:induction false} ScanTerm(argv: seq<string>, i: nat, o: Options)
    ensures ScanArgs(argv, i, o).Ok? ==>
              (ScanArgs(argv, i, o).value.term <==> o.term || exists j :: i <= j < |argv| && argv[j] == "-r")
    decreases |argv| - i
  {
    if i < |argv| {
      var s := StepArg(argv, i, o);
      if s.Ok? {
        ScanTerm(argv, i + 1, s.value);
        assert s.value.term == (o.term || argv[i] == "-r");
      }
    }
  }

  /** The program name alone is a scan that finds no memory
      specification, so `main` fails. */
  lemma NoArguments(prog: string)
    ensures ScanArgs([prog], 1, Defaults) == Ok(Defaults) && !Defaults.memory
  {
  }

  /** With no comma both factors are the one number given. */
  lemma BankwiseNoComma(t: string)
    requires ',' !in t
    ensures ParseBankwise(t).Ok? ==> ParseBankwise(t).value.0 == ParseBankwise(t).value.1
  {
  }

  /** "rho,sigma" in decimal reads back both factors. */
  lemma BankwisePairRoundTrip(rho: nat, sigma: nat)
    requires rho <= INT_MAX && sigma <= INT_MAX
    ensures ParseBankwise(IntString(rho) + "," + IntString(sigma)) == Ok((rho, sigma))
  {
    var a, b := IntString(rho), IntString(sigma);
    assert ',' !in a && ',' !in b;
    CommaPieces(a, b);
    StoIRoundTrip(rho);
    StoIRoundTrip(sigma);
    assert UpToComma(a + "," + b) == a && UpToComma(AfterComma(a + "," + b)) == b;
    WrapSmall(rho);
    WrapSmall(sigma);
  }

  /** "rho" alone in decimal reads back rho for both factors. */
  lemma BankwiseSingleRoundTrip(rho: nat)
    requires rho <= INT_MAX
    ensures ParseBankwise(IntString(rho)) == Ok((rho, rho))
  {
    var a := IntString(rho);
    assert ',' !in a;
    StoIRoundTrip(rho);
    assert UpToComma(a) == a && UpToComma(AfterComma(a)) == a;
    WrapSmall(rho);
  }

  /** A value that does not start with white space, a sign or a digit
      (the empty value included) makes `-b` fail. */
  lemma BankwiseNotNumber(t: string)
    requires t == [] || (!IsSpace(t[0]) && t[0] != '+' && t[0] != '-' && !IsDigitIn(t[0], 10))
    ensures ParseBankwise(t).Fail?
  {
    var first := UpToComma(t);
    if t != [] && t[0] == ',' {
      assert IndexOf(t, ',') == Some(0);
    }
    assert first == [] || first[0] == t[0];
    NoDigitsConversions(first);
  }
}
