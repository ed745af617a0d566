// hayasum's command line: options before the first operand, values attached or separate.
module Arguments {
  import opened Powers
  import opened OutputLines
  import opened SeedText

  /** An element of argv; the array may hold null. */
  datatype Arg = Null | Text(s: CString)

  datatype Opts = Opts(seed: nat, bits: int)

  datatype Error =
    | UnknownLong(arg: CString) | UnknownShort(c: char) | TakesNoArgument(opt: char)
    | RequiresArgument(opt: char, long: bool) | InvalidSeed(v: CString) | InvalidWidth(v: CString)

  datatype Parsed = Run(o: Opts, operands: seq<Arg>) | Help | Version | UsageError(e: Error)

  datatype Applied = Applied(o: Opts) | Refused(e: Error)

  function Apply(opt: char, v: CString, o: Opts): Applied {
    if opt == 's' then
      if IsSeedText(v) && SeedValue(v) < TWO_64 then Applied(o.(seed := SeedValue(v))) else Refused(InvalidSeed(v))
    else if v == "64" then Applied(o.(bits := 64))
    else if v == "128" then Applied(o.(bits := 128))
    else Refused(InvalidWidth(v))
  }

  /** What one element of argv asks for in option position. */
  datatype Asks =
    | Operand | EndOfOptions | AsksHelp | AsksVersion
    | Wants(opt: char, long: bool) | Carries(opt: char, v: CString) | Wrong(e: Error)

  /** The length of s up to the first '='. */
  function NameLength(s: CString): (n: nat)
    ensures n <= |s| && '=' !in s[..n] && (n < |s| ==> s[n] == '=')
  {
    if |s| == 0 || s[0] == '=' then 0 else 1 + NameLength(s[1..])
  }

  function LongOption(name: string): char {
    if name == "help" then 'h' else if name == "version" then 'V'
    else if name == "seed" then 's' else if name == "bits" then 'b' else '\0'
  }

  function Asked(a: Arg): Asks {
    if a.Null? || |a.s| < 2 || a.s[0] != '-' then Operand
    else if a.s == "--" then EndOfOptions
    else if a.s[1] == '-' then
      var name := a.s[2..];
      var n := NameLength(name);
      var opt := LongOption(name[..n]);
      if opt == '\0' then Wrong(UnknownLong(a.s))
      else if opt == 'h' || opt == 'V' then
        if n < |name| then Wrong(TakesNoArgument(opt)) else if opt == 'h' then AsksHelp else AsksVersion
      else if n < |name| then Carries(opt, name[n + 1..])
      else Wants(opt, true)
    else if a.s[1] == 'h' then AsksHelp
    else if a.s[1] == 'V' then AsksVersion
    else if a.s[1] != 's' && a.s[1] != 'b' then Wrong(UnknownShort(a.s[1]))
    else if |a.s| > 2 then Carries(a.s[1], a.s[2..])
    else Wants(a.s[1], false)
  }

  /** The outcome of parsing the elements of argv that are left. */
  function Parse(rest: seq<Arg>, o: Opts): Parsed
    decreases |rest|
  {
    if |rest| == 0 then Run(o, [])
    else match Asked(rest[0])
      case Operand => Run(o, rest)
      case EndOfOptions => Run(o, rest[1..])
      case AsksHelp => Help
      case AsksVersion => Version
      case Wrong(e) => UsageError(e)
      case Carries(opt, v) => Continue(Apply(opt, v, o), rest, 1)
      case Wants(opt, long) =>
        if |rest| > 1 && rest[1].Text? then Continue(Apply(opt, rest[1].s, o), rest, 2)
        else UsageError(RequiresArgument(opt, long))
  }

  function Continue(r: Applied, rest: seq<Arg>, k: nat): Parsed
    requires 0 < k <= |rest|
    decreases |rest|, 0
  {
    match r
    case Applied(o) => Parse(rest[k..], o)
    case Refused(e) => UsageError(e)
  }

  datatype Status = RUN | HELP | SHOW_VERSION | USAGE_ERROR(e: Error)

  /** One value-taking option. */
  method SetOption(opt: char, v: CString, o: Opts) returns (r: Applied)
    ensures r == Apply(opt, v, o)
  {
    if opt == 's' {
      var ok, n := ParseU64(v);
      if ok { return Applied(o.(seed := n)); }
      return Refused(InvalidSeed(v));
    }
    if v == "64" { return Applied(o.(bits := 64)); }
    if v == "128" { return Applied(o.(bits := 128)); }
    return Refused(InvalidWidth(v));
  }

  /** strchr(s, '=') as an index, or the length when there is none. */
  method FindEquals(s: CString) returns (n: nat)
    ensures n == NameLength(s)
  {
    n := 0;
    while n < |s| && s[n] != '='
      invariant n <= |s| && NameLength(s) == n + NameLength(s[n..])
    {
      assert s[n..][1..] == s[n + 1..];
      n := n + 1;
    }
  }

  /** Reads one element of argv in option position. */
  method ReadOption(a: CString) returns (asks: Asks)
    ensures asks == Asked(Text(a))
  {
    hide LongOption;
    if At(a, 0) != '-' || At(a, 1) == '\0' { return Operand; }
    if a[1] == '-' && At(a, 2) == '\0' { return EndOfOptions; }
    if a[1] == '-' {
      var name := a[2..];
      var n := FindEquals(name);
      var opt := LongOption(name[..n]);
      if opt == '\0' { return Wrong(UnknownLong(a)); }
      if opt == 'h' || opt == 'V' {
        if n < |name| { return Wrong(TakesNoArgument(opt)); }
        return if opt == 'h' then AsksHelp else AsksVersion;
      }
      if n < |name| { return Carries(opt, name[n + 1..]); }
      return Wants(opt, true);
    }
    if a[1] == 'h' { return AsksHelp; }
    if a[1] == 'V' { return AsksVersion; }
    if a[1] != 's' && a[1] != 'b' { return Wrong(UnknownShort(a[1])); }
    if At(a, 2) != '\0' { return Carries(a[1], a[2..]); }
    return Wants(a[1], false);
  }

  method ParseArgs(argv: seq<Arg>) returns (status: Status, o: Opts, first: nat)
    ensures var p := Parse(if |argv| > 0 then argv[1..] else [], Opts(0, 64));
      (p.Help? ==> status == HELP) && (p.Version? ==> status == SHOW_VERSION) &&
      (p.UsageError? ==> status == USAGE_ERROR(p.e)) &&
      (p.Run? ==> status == RUN && o == p.o && first <= |argv| && argv[first..] == p.operands)
  {
    hide Apply, Asked;
    o := Opts(0, 64);
    first := if |argv| > 0 then 1 else 0;
    ghost var target := Parse(argv[first..], o);
    var i := first;
    while i < |argv|
      invariant i <= |argv| && Parse(argv[i..], o) == target
      decreases |argv| - i
    {
      var a := argv[i];
      assert argv[i..][0] == a && argv[i..][1..] == argv[i + 1..];
      if a.Null? {
        NullIsOperand();
        break;
      }
      var asks := ReadOption(a.s);
      if asks.Operand? { break; }
      if asks.EndOfOptions? {
        i := i + 1;
        break;
      }
      if asks.Wrong? { return USAGE_ERROR(asks.e), o, first; }
      if asks.AsksHelp? { return HELP, o, first; }
      if asks.AsksVersion? { return SHOW_VERSION, o, first; }
      var v: CString;
      if asks.Carries? {
        v := asks.v;
      } else if i + 1 < |argv| && argv[i + 1].Text? {
        i := i + 1;
        v := argv[i].s;
      } else {
        return USAGE_ERROR(RequiresArgument(asks.opt, asks.long)), o, first;
      }
      var r := SetOption(asks.opt, v, o);
      if r.Refused? { return USAGE_ERROR(r.e), o, first; }
      o := r.o;
      i := i + 1;
    }
    first := i;
    status := RUN;
  }

  lemma NullIsOperand()
    ensures Asked(Null).Operand?
  {
  }

  // ---- Writing options and reading them back -----------------------------------------

  /** The four ways to give a value to an option. */
  datatype Form = ShortAttached | ShortSeparate | LongAttached | LongSeparate

  predicate TakesValue(opt: char) { opt == 's' || opt == 'b' }

  function LongName(opt: char): CString { if opt == 's' then "seed" else "bits" }

  function Render(opt: char, v: CString, form: Form): seq<Arg>
    requires TakesValue(opt)
  {
    match form
    case ShortAttached => [Text(['-', opt] + v)]
    case ShortSeparate => [Text(['-', opt]), Text(v)]
    case LongAttached => [Text("--" + LongName(opt) + "=" + v)]
    case LongSeparate => [Text("--" + LongName(opt)), Text(v)]
  }

  lemma {:induction false} NameLengthIs(name: CString, more: CString)
    requires '=' !in name
    requires |more| == 0 || more[0] == '='
    ensures NameLength(name + more) == |name|
  {
    if |name| == 0 {
      assert name + more == more;
    } else {
      NameLengthIs(name[1..], more);
      assert (name + more)[1..] == name[1..] + more;
    }
  }

  lemma LongForms(opt: char, v: CString)
    requires TakesValue(opt)
    ensures Asked(Text("--" + LongName(opt))) == Wants(opt, true)
    ensures Asked(Text("--" + LongName(opt) + "=" + v)) == Carries(opt, v)
  {
    var name := LongName(opt);
    var plain, attached := "--" + name, "--" + name + "=" + v;
    NameLengthIs(name, "");
    NameLengthIs(name, "=" + v);
    assert LongOption(name) == opt;
    assert plain[2..] == name + "" && (name + "")[..|name|] == name;
    assert attached[2..] == name + ("=" + v) && (name + ("=" + v))[..|name|] == name;
    assert (name + ("=" + v))[|name| + 1..] == v;
  }

  /** Every form hands the same value to the same option and goes on with what follows. */
  lemma RenderedParses(opt: char, v: CString, form: Form, rest: seq<Arg>, o: Opts)
    requires TakesValue(opt)
    requires form.ShortAttached? ==> v != ""
    ensures Parse(Render(opt, v, form) + rest, o) ==
      var r := Apply(opt, v, o);
      if r.Applied? then Parse(rest, r.o) else UsageError(r.e)
  {
    hide Apply, LongName, NameLength, LongOption;
    var r := Render(opt, v, form);
    var all := r + rest;
    assert all[|r|..] == rest;
    assert |r| == 2 ==> all[1] == Text(v);
    match form {
      case ShortAttached =>
        assert (['-', opt] + v)[2..] == v;
        assert Asked(all[0]) == Carries(opt, v);
      case ShortSeparate =>
        assert Asked(all[0]) == Wants(opt, false);
      case LongAttached =>
        LongForms(opt, v);
        assert Asked(all[0]) == Carries(opt, v);
      case LongSeparate =>
        LongForms(opt, v);
        assert Asked(all[0]) == Wants(opt, true);
    }
  }

  /**
   * Attached and separate values are interchangeable, whatever follows, exactly when the short
   * form is not asked to attach an empty value: -s alone takes the next argument instead.
   */
  lemma FormsInterchangeable(opt: char, v: CString, f: Form, g: Form)
    requires TakesValue(opt) && f != g
    ensures (forall rest: seq<Arg>, o: Opts :: Parse(Render(opt, v, f) + rest, o) == Parse(Render(opt, v, g) + rest, o))
      <==> (f.ShortAttached? || g.ShortAttached? ==> v != "")
  {
    hide Apply, Parse, Render;
    if f.ShortAttached? && v == "" {
      EmptyValueDiffers(opt, g);
    } else if g.ShortAttached? && v == "" {
      EmptyValueDiffers(opt, f);
    } else {
      forall rest: seq<Arg>, o: Opts
        ensures Parse(Render(opt, v, f) + rest, o) == Parse(Render(opt, v, g) + rest, o)
      {
        RenderedParses(opt, v, f, rest, o);
        RenderedParses(opt, v, g, rest, o);
      }
    }
  }

  lemma EmptyAndSixtyFour(opt: char, o: Opts)
    requires TakesValue(opt)
    ensures Apply(opt, "", o).Refused? && Apply(opt, "64", o).Applied?
  {
    var t := "64";
    assert t[..1] == "6" && t[..1][..0] == "";
    assert NumberOf(t[..1], 10) == 6;
    assert NumberOf(t, 10) == 64;
  }

  /** A short option on its own takes 64 as its value; every other form has an empty value to refuse. */
  lemma EmptyValueDiffers(opt: char, form: Form)
    requires TakesValue(opt) && !form.ShortAttached?
    ensures var rest, o := [Text("64")], Opts(0, 64);
      Parse(Render(opt, "", ShortAttached) + rest, o) != Parse(Render(opt, "", form) + rest, o)
  {
    hide Apply;
    var rest, o := [Text("64")], Opts(0, 64);
    EmptyAndSixtyFour(opt, o);
    RenderedParses(opt, "", form, rest, o);
    RenderedParses(opt, "64", ShortSeparate, [], o);
    assert ['-', opt] + "" == ['-', opt];
    assert Render(opt, "", ShortAttached) + rest == [Text(['-', opt]), Text("64")];
    assert Render(opt, "64", ShortSeparate) + [] == [Text(['-', opt]), Text("64")];
  }

  /** A choice of seed or width, and how to write it. */
  datatype Setting = SetSeed(n: nat, hex: bool, form: Form) | SetWidth(wide: bool, form: Form)

  predicate Sound(x: Setting) { x.SetSeed? ==> x.n < TWO_64 }

  function Written(x: Setting): seq<Arg>
    requires Sound(x)
  {
    match x
    case SetSeed(n, hex, form) => Render('s', SeedString(n, hex), form)
    case SetWidth(wide, form) => Render('b', if wide then "128" else "64", form)
  }

  function Chosen(x: Setting, o: Opts): Opts {
    match x
    case SetSeed(n, _, _) => o.(seed := n)
    case SetWidth(wide, _) => o.(bits := if wide then 128 else 64)
  }

  function WrittenAll(xs: seq<Setting>): seq<Arg>
    requires forall x :: x in xs ==> Sound(x)
  {
    if |xs| == 0 then [] else Written(xs[0]) + WrittenAll(xs[1..])
  }

  /** Later settings win. */
  function ChosenAll(xs: seq<Setting>, o: Opts): Opts {
    if |xs| == 0 then o else ChosenAll(xs[1..], Chosen(xs[0], o))
  }

  lemma SettingParses(x: Setting, rest: seq<Arg>, o: Opts)
    requires Sound(x)
    ensures Parse(Written(x) + rest, o) == Parse(rest, Chosen(x, o))
  {
    hide Parse, Render, SeedString, SeedValue, IsSeedText;
    match x {
      case SetSeed(n, hex, form) =>
        SeedStringParses(n, hex);
        RenderedParses('s', SeedString(n, hex), form, rest, o);
      case SetWidth(wide, form) =>
        RenderedParses('b', if wide then "128" else "64", form, rest, o);
    }
  }

  lemma {:induction false} SettingsParse(xs: seq<Setting>, rest: seq<Arg>, o: Opts)
    requires forall x :: x in xs ==> Sound(x)
    ensures Parse(WrittenAll(xs) + rest, o) == Parse(rest, ChosenAll(xs, o))
  {
    hide Parse, Written, Chosen;
    if |xs| == 0 {
      assert WrittenAll(xs) + rest == rest;
    } else {
      SettingParses(xs[0], WrittenAll(xs[1..]) + rest, o);
      SettingsParse(xs[1..], rest, Chosen(xs[0], o));
      assert WrittenAll(xs) + rest == Written(xs[0]) + (WrittenAll(xs[1..]) + rest);
    }
  }

  /** Settings, then -- unless the first operand cannot be taken for an option, then the operands. */
  function CommandLine(program: Arg, xs: seq<Setting>, dashes: bool, operands: seq<Arg>): seq<Arg>
    requires forall x :: x in xs ==> Sound(x)
  {
    [program] + (WrittenAll(xs) + ((if dashes then [Text("--")] else []) + operands))
  }

  /**
   * A command line is read back as it was written: the last seed and width, and the operands.
   * The dashes may be left out exactly when the first operand does not look like an option.
   */
  lemma CommandLineRoundTrip(program: Arg, xs: seq<Setting>, dashes: bool, operands: seq<Arg>)
    requires forall x :: x in xs ==> Sound(x)
    ensures dashes || |operands| == 0 || Asked(operands[0]).Operand? <==>
      Parse(CommandLine(program, xs, dashes, operands)[1..], Opts(0, 64)) == Run(ChosenAll(xs, Opts(0, 64)), operands)
  {
    hide Apply, WrittenAll, ChosenAll, Asked;
    var o := ChosenAll(xs, Opts(0, 64));
    var tail := (if dashes then [Text("--")] else []) + operands;
    assert CommandLine(program, xs, dashes, operands)[1..] == WrittenAll(xs) + tail;
    SettingsParse(xs, tail, Opts(0, 64));
    if dashes {
      DashesEndOptions();
      assert tail[1..] == operands;
    } else {
      assert tail == operands;
      if |operands| > 0 && !Asked(operands[0]).Operand? {
        OptionsAreConsumed(operands, o);
      }
    }
  }

  lemma DashesEndOptions()
    ensures Asked(Text("--")).EndOfOptions?
  {
  }

  /** Operands are always a suffix of what is left, and a proper one past any option. */
  lemma {:induction false} OptionsAreConsumed(rest: seq<Arg>, o: Opts)
    ensures Parse(rest, o).Run? ==> |Parse(rest, o).operands| <= |rest|
    ensures |rest| > 0 && !Asked(rest[0]).Operand? && Parse(rest, o).Run? ==> |Parse(rest, o).operands| < |rest|
    decreases |rest|
  {
    hide Apply, Asked;
    if |rest| > 0 {
      match Asked(rest[0]) {
        case Carries(opt, v) =>
          if Apply(opt, v, o).Applied? { OptionsAreConsumed(rest[1..], Apply(opt, v, o).o); }
        case Wants(opt, long) =>
          if |rest| > 1 && rest[1].Text? && Apply(opt, rest[1].s, o).Applied? {
            OptionsAreConsumed(rest[2..], Apply(opt, rest[1].s, o).o);
          }
        case _ =>
      }
    }
  }

  // ---- Every other element, after any settings -------------------------------------------

  /** What a command line says whose options are the settings xs and then rest. */
  function After(xs: seq<Setting>, rest: seq<Arg>): Parsed
    requires forall x :: x in xs ==> Sound(x)
  {
    Parse(WrittenAll(xs) + rest, Opts(0, 64))
  }

  lemma AfterSettings(xs: seq<Setting>, first: Arg, rest: seq<Arg>)
    requires forall x :: x in xs ==> Sound(x)
    ensures After(xs, [first] + rest) == Parse([first] + rest, ChosenAll(xs, Opts(0, 64)))
    ensures ([first] + rest)[0] == first && ([first] + rest)[1..] == rest
  {
    hide Parse, WrittenAll, ChosenAll;
    SettingsParse(xs, [first] + rest, Opts(0, 64));
  }

  lemma LongNamed(name: CString, more: CString)
    requires '=' !in name && (more == "" || more[0] == '=')
    ensures var a := "--" + name + more;
      a[2..] == name + more && NameLength(a[2..]) == |name| && a[2..][..|name|] == name
  {
    NameLengthIs(name, more);
    assert ("--" + name + more)[2..] == name + more;
  }

  /** How a long option is read, given what its name stands for. */
  lemma LongAsks(a: CString, name: CString, more: CString)
    requires '=' !in name && (more == "" || more[0] == '=') && name + more != "" && a == "--" + name + more
    ensures var opt := LongOption(name);
      Asked(Text(a)) ==
        if opt == '\0' then Wrong(UnknownLong(a))
        else if opt != 'h' && opt != 'V' then (if more == "" then Wants(opt, true) else Carries(opt, more[1..]))
        else if more != "" then Wrong(TakesNoArgument(opt))
        else if opt == 'h' then AsksHelp else AsksVersion
  {
    hide NameLength, LongOption;
    LongNamed(name, more);
    assert a[1] == '-';
    assert more != "" ==> a[2..][|name| + 1..] == more[1..];
  }

  lemma LongNames()
    ensures LongOption("help") == 'h' && LongOption("version") == 'V'
    ensures LongOption("seed") == 's' && LongOption("bits") == 'b'
  {
  }

  lemma PlainShortForms()
    ensures Asked(Text("-s")) == Wants('s', false) && Asked(Text("-b")) == Wants('b', false)
  {
  }

  /** --help, or -h and anything after it, asks for help. */
  lemma HelpAsked(xs: seq<Setting>, rest: seq<Arg>, a: CString)
    requires forall x :: x in xs ==> Sound(x)
    requires a == "--help" || (|a| >= 2 && a[..2] == "-h")
    ensures After(xs, [Text(a)] + rest) == Help
  {
    hide After, WrittenAll, ChosenAll, NameLength, LongOption;
    LongNames();
    if a == "--help" { LongAsks(a, "help", ""); }
    assert a != "--help" ==> a[0] == a[..2][0] && a[1] == a[..2][1];
    AfterSettings(xs, Text(a), rest);
  }

  /** --version, or -V and anything after it, asks for the version. */
  lemma VersionAsked(xs: seq<Setting>, rest: seq<Arg>, a: CString)
    requires forall x :: x in xs ==> Sound(x)
    requires a == "--version" || (|a| >= 2 && a[..2] == "-V")
    ensures After(xs, [Text(a)] + rest) == Version
  {
    hide After, WrittenAll, ChosenAll, NameLength, LongOption;
    LongNames();
    if a == "--version" { LongAsks(a, "version", ""); }
    assert a != "--version" ==> a[0] == a[..2][0] && a[1] == a[..2][1];
    AfterSettings(xs, Text(a), rest);
  }

  /** Neither long form takes a value, not even an empty one. */
  lemma ValueNotTaken(xs: seq<Setting>, rest: seq<Arg>, v: CString, a: CString, b: CString)
    requires forall x :: x in xs ==> Sound(x)
    requires a == "--help=" + v && b == "--version=" + v
    ensures After(xs, [Text(a)] + rest) == UsageError(TakesNoArgument('h'))
    ensures After(xs, [Text(b)] + rest) == UsageError(TakesNoArgument('V'))
  {
    hide After, WrittenAll, ChosenAll, Asked, LongOption;
    LongNames();
    LongAsks(a, "help", "=" + v);
    LongAsks(b, "version", "=" + v);
    AfterSettings(xs, Text(a), rest);
    AfterSettings(xs, Text(b), rest);
  }

  /** Any other long name is unknown, with or without a value. */
  lemma UnknownLongOption(xs: seq<Setting>, rest: seq<Arg>, name: CString, more: CString)
    requires forall x :: x in xs ==> Sound(x)
    requires '=' !in name && (more == "" || more[0] == '=') && name + more != ""
    requires name != "help" && name != "version" && name != "seed" && name != "bits"
    ensures After(xs, [Text("--" + name + more)] + rest) == UsageError(UnknownLong("--" + name + more))
  {
    hide After, WrittenAll, ChosenAll, Asked;
    LongAsks("--" + name + more, name, more);
    AfterSettings(xs, Text("--" + name + more), rest);
  }

  /** So is any other letter, whatever follows it. */
  lemma UnknownShortOption(xs: seq<Setting>, rest: seq<Arg>, c: char, t: CString)
    requires forall x :: x in xs ==> Sound(x)
    requires c != '\0' && c != '-' && c != 'h' && c != 'V' && c != 's' && c != 'b'
    ensures After(xs, [Text(['-', c] + t)] + rest) == UsageError(UnknownShort(c))
  {
    hide After, WrittenAll, ChosenAll, NameLength;
    assert (['-', c] + t)[1] == c;
    AfterSettings(xs, Text(['-', c] + t), rest);
  }

  /** A value option with nothing after it, or a null element, lacks its value. */
  lemma ValueMissing(xs: seq<Setting>, rest: seq<Arg>)
    requires forall x :: x in xs ==> Sound(x)
    requires rest == [] || rest[0] == Null
    ensures After(xs, [Text("-s")] + rest) == UsageError(RequiresArgument('s', false))
    ensures After(xs, [Text("-b")] + rest) == UsageError(RequiresArgument('b', false))
  {
    hide After, WrittenAll, ChosenAll, Asked;
    PlainShortForms();
    AfterSettings(xs, Text("-s"), rest);
    AfterSettings(xs, Text("-b"), rest);
  }

  lemma LongValueMissing(xs: seq<Setting>, rest: seq<Arg>, a: CString, b: CString)
    requires forall x :: x in xs ==> Sound(x)
    requires (rest == [] || rest[0] == Null) && a == "--seed" && b == "--bits"
    ensures After(xs, [Text(a)] + rest) == UsageError(RequiresArgument('s', true))
    ensures After(xs, [Text(b)] + rest) == UsageError(RequiresArgument('b', true))
  {
    hide After, WrittenAll, ChosenAll, Asked, LongOption;
    LongNames();
    LongAsks(a, "seed", "");
    LongAsks(b, "bits", "");
    AfterSettings(xs, Text(a), rest);
    AfterSettings(xs, Text(b), rest);
  }

  /** The four ways to write a value, letter by letter. */
  lemma Spellings(v: CString)
    ensures Render('s', v, ShortAttached) == [Text("-s" + v)] && Render('s', v, ShortSeparate) == [Text("-s"), Text(v)]
    ensures Render('s', v, LongAttached) == [Text("--seed=" + v)] && Render('s', v, LongSeparate) == [Text("--seed"), Text(v)]
    ensures Render('b', v, ShortAttached) == [Text("-b" + v)] && Render('b', v, ShortSeparate) == [Text("-b"), Text(v)]
    ensures Render('b', v, LongAttached) == [Text("--bits=" + v)] && Render('b', v, LongSeparate) == [Text("--bits"), Text(v)]
  {
    assert ['-', 's'] + v == "-s" + v && ['-', 'b'] + v == "-b" + v;
    assert ['-', 's'] == "-s" && ['-', 'b'] == "-b";
    assert "--" + "seed" + "=" + v == "--seed=" + v && "--" + "bits" + "=" + v == "--bits=" + v;
    assert "--" + "seed" == "--seed" && "--" + "bits" == "--bits";
  }

  /** A value that is no seed or no width is refused with its own error, however it is written. */
  lemma ValueRefused(xs: seq<Setting>, rest: seq<Arg>, v: CString, form: Form)
    requires forall x :: x in xs ==> Sound(x)
    requires form.ShortAttached? ==> v != ""
    ensures !(IsSeedText(v) && SeedValue(v) < TWO_64) ==>
      After(xs, Render('s', v, form) + rest) == UsageError(InvalidSeed(v))
    ensures v != "64" && v != "128" ==> After(xs, Render('b', v, form) + rest) == UsageError(InvalidWidth(v))
  {
    hide Parse, WrittenAll, ChosenAll, Render, IsSeedText, SeedValue;
    var o := ChosenAll(xs, Opts(0, 64));
    SettingsParse(xs, Render('s', v, form) + rest, Opts(0, 64));
    SettingsParse(xs, Render('b', v, form) + rest, Opts(0, 64));
    RenderedParses('s', v, form, rest, o);
    RenderedParses('b', v, form, rest, o);
  }

  /** Null, the empty text, a lone dash and text without a dash end the options and stay operands. */
  lemma OperandsStart(xs: seq<Setting>, rest: seq<Arg>, a: Arg)
    requires forall x :: x in xs ==> Sound(x)
    requires a.Null? || a.s == "" || a.s == "-" || a.s[0] != '-'
    ensures After(xs, [a] + rest) == Run(ChosenAll(xs, Opts(0, 64)), [a] + rest)
    ensures After(xs, [Text("--")] + rest) == Run(ChosenAll(xs, Opts(0, 64)), rest)
  {
    hide After, WrittenAll, ChosenAll;
    AfterSettings(xs, a, rest);
    AfterSettings(xs, Text("--"), rest);
  }
}
