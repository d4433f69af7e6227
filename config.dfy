/**
 * Config.h and Config.cpp: the directories and append files Pixi works
 * with, the command-line option parser that fills them in, and the small
 * generated files that depend on the options.
 */
module Config {
  import opened Types
  import Util
  import CLib
  import MemoryFile

  // ---------------------------------------------------------------- enums

  /** `PathType`, in declaration order. */
  datatype PathType = Routines | Sprites | Generators | Shooters | List | Asm | Extended | Cluster

  /** `PathType::SIZE` and `Paths::ArrSize`. */
  const PATH_TYPE_SIZE: nat := 8

  /** `FromEnum(PathType)`. */
  function PathIndex(t: PathType): (i: nat)
    ensures i < PATH_TYPE_SIZE
  {
    match t
    case Routines => 0
    case Sprites => 1
    case Generators => 2
    case Shooters => 3
    case List => 4
    case Asm => 5
    case Extended => 6
    case Cluster => 7
  }

  /** `(PathType)i`. */
  function PathTypeOf(i: nat): (t: PathType)
    requires i < PATH_TYPE_SIZE
    ensures PathIndex(t) == i
  {
    [Routines, Sprites, Generators, Shooters, List, Asm, Extended, Cluster][i]
  }

  /** `ExtType`, in declaration order. */
  datatype ExtType = Ssc | Mwt | Mw2 | S16

  const EXT_TYPE_SIZE: nat := 4

  function ExtIndex(t: ExtType): (i: nat)
    ensures i < EXT_TYPE_SIZE
  {
    match t
    case Ssc => 0
    case Mwt => 1
    case Mw2 => 2
    case S16 => 3
  }

  function ExtTypeOf(i: nat): (t: ExtType)
    requires i < EXT_TYPE_SIZE
    ensures ExtIndex(t) == i
  {
    [Ssc, Mwt, Mw2, S16][i]
  }

  // ---------------------------------------------------------------- Paths, Extensions

  /** `Paths`: one directory or file per `PathType`. */
  datatype Paths = Paths(list: string, pasm: string, sprites: string, shooters: string,
                         generators: string, extended: string, cluster: string, routines: string)
  {
    /** `operator[](PathType)`. */
    function At(t: PathType): string {
      match t
      case Routines => routines
      case Sprites => sprites
      case Generators => generators
      case Shooters => shooters
      case List => list
      case Asm => pasm
      case Extended => extended
      case Cluster => cluster
    }

    /** `operator[](int)`: the index is clamped into 0..7 first. */
    function AtIndex(index: int): (p: string)
      ensures 0 <= index < PATH_TYPE_SIZE ==> p == At(PathTypeOf(index))
      ensures index < 0 ==> p == routines
      ensures index >= PATH_TYPE_SIZE ==> p == cluster
    {
      At(PathTypeOf(Clamp(index, 0, PATH_TYPE_SIZE - 1)))
    }

    /** Assignment through `operator[](PathType)`. */
    function With(t: PathType, v: string): (r: Paths)
      ensures r.At(t) == v
      ensures forall u: PathType :: u != t ==> r.At(u) == At(u)
    {
      match t
      case Routines => this.(routines := v)
      case Sprites => this.(sprites := v)
      case Generators => this.(generators := v)
      case Shooters => this.(shooters := v)
      case List => this.(list := v)
      case Asm => this.(pasm := v)
      case Extended => this.(extended := v)
      case Cluster => this.(cluster := v)
    }
  }

  const DEFAULT_PATHS: Paths :=
    Paths("list.txt", "asm/", "sprites/", "shooters/", "generators/", "extended/", "cluster/", "routines/")

  /** `Extensions`: the files appended to the ROM's .ssc, .mwt, .mw2 and .s16 outputs. */
  datatype Extensions = Extensions(ssc: string, mwt: string, mw2: string, s16: string)
  {
    function At(t: ExtType): string {
      match t
      case Ssc => ssc
      case Mwt => mwt
      case Mw2 => mw2
      case S16 => s16
    }

    /** `operator[](int)`: the index is clamped into 0..3 first. */
    function AtIndex(index: int): (p: string)
      ensures 0 <= index < EXT_TYPE_SIZE ==> p == At(ExtTypeOf(index))
      ensures index < 0 ==> p == ssc
      ensures index >= EXT_TYPE_SIZE ==> p == s16
    {
      At(ExtTypeOf(Clamp(index, 0, EXT_TYPE_SIZE - 1)))
    }

    function With(t: ExtType, v: string): (r: Extensions)
      ensures r.At(t) == v
      ensures forall u: ExtType :: u != t ==> r.At(u) == At(u)
    {
      match t
      case Ssc => this.(ssc := v)
      case Mwt => this.(mwt := v)
      case Mw2 => this.(mw2 := v)
      case S16 => this.(s16 := v)
    }
  }

  const DEFAULT_EXTENSIONS: Extensions := Extensions("", "", "", "")

  /** The default of every path is a non-empty directory or file name. */
  lemma DefaultPathsNonEmpty(t: PathType)
    ensures |DEFAULT_PATHS.At(t)| > 0
    ensures t != List ==> DEFAULT_PATHS.At(t)[|DEFAULT_PATHS.At(t)| - 1] == '/'
  {
  }

  // ---------------------------------------------------------------- option prefixes

  /** `Paths::prefixes`. */
  const PATH_PREFIXES: seq<string> := ["-l", "-a", "-sp", "-sh", "-g", "-e", "-c", "-r"]
  /** `Extensions::prefixes`. */
  const EXT_PREFIXES: seq<string> := ["-ssc", "-mwt", "-mw2", "-s16"]

  /** The first index at or after `i` whose prefix is `arg`. */
  function PrefixIndex(prefixes: seq<string>, arg: string, i: nat): (r: Option<nat>)
    requires i <= |prefixes|
    ensures r.Some? ==> i <= r.value < |prefixes| && prefixes[r.value] == arg
    ensures r.Some? ==> forall k :: i <= k < r.value ==> prefixes[k] != arg
    ensures r.None? ==> forall k :: i <= k < |prefixes| ==> prefixes[k] != arg
    decreases |prefixes| - i
  {
    if i == |prefixes| then None
    else if prefixes[i] == arg then Some(i)
    else PrefixIndex(prefixes, arg, i + 1)
  }

  /** In a table without repeats, the first match of entry `k` is `k` itself. */
  lemma PrefixIndexOfDistinct(prefixes: seq<string>, k: nat)
    requires k < |prefixes|
    requires forall a, b :: 0 <= a < b < |prefixes| ==> prefixes[a] != prefixes[b]
    ensures PrefixIndex(prefixes, prefixes[k], 0) == Some(k)
  {
  }

  lemma PathPrefixesDistinct()
    ensures forall a, b :: 0 <= a < b < |PATH_PREFIXES| ==> PATH_PREFIXES[a] != PATH_PREFIXES[b]
  {
  }

  lemma ExtPrefixesDistinct()
    ensures forall a, b :: 0 <= a < b < |EXT_PREFIXES| ==> EXT_PREFIXES[a] != EXT_PREFIXES[b]
  {
  }

  /** The option `print_help` documents for each path. */
  function PathPrefix(t: PathType): string {
    match t
    case Routines => "-r"
    case Sprites => "-sp"
    case Generators => "-g"
    case Shooters => "-sh"
    case List => "-l"
    case Asm => "-a"
    case Extended => "-e"
    case Cluster => "-c"
  }

  /** The paths in the order of `Paths::prefixes`, each entry the path its prefix documents. */
  const DOCUMENTED_ORDER: seq<PathType> := [List, Asm, Sprites, Shooters, Generators, Extended, Cluster, Routines]

  /** Where the documented option of `t` sits in `Paths::prefixes`. */
  function PrefixSlot(t: PathType): (k: nat)
    ensures k < |PATH_PREFIXES| && PATH_PREFIXES[k] == PathPrefix(t) && DOCUMENTED_ORDER[k] == t
  {
    match t
    case List => 0
    case Asm => 1
    case Sprites => 2
    case Shooters => 3
    case Generators => 4
    case Extended => 5
    case Cluster => 6
    case Routines => 7
  }

  /** `parse_cmd_line_args` as written: the i-th prefix sets `m_Paths[(PathType)i]`. */
  function PathOptionAsWritten(arg: string): (r: Option<PathType>)
    ensures r.Some? ==> PATH_PREFIXES[PathIndex(r.value)] == arg
  {
    match PrefixIndex(PATH_PREFIXES, arg, 0)
    case None => None
    case Some(i) => Some(PathTypeOf(i))
  }

  /**
   * As written, only "-sh" sets the path it is documented to set: "-l"
   * (the list file) sets the routines directory, "-a" (asm) the sprites
   * directory, and so on around the table.
   */
  lemma PathPrefixesMisaligned()
    ensures PathOptionAsWritten("-l") == Some(Routines) && PathPrefix(List) == "-l"
    ensures PathOptionAsWritten("-a") == Some(Sprites) && PathPrefix(Asm) == "-a"
    ensures forall t :: PathOptionAsWritten(PathPrefix(t)) == Some(t) <==> t == Shooters
  {
    PathPrefixesDistinct();
    forall t
      ensures PathOptionAsWritten(PathPrefix(t)) == Some(t) <==> t == Shooters
    {
      PrefixIndexOfDistinct(PATH_PREFIXES, PrefixSlot(t));
      assert PathOptionAsWritten(PathPrefix(t)) == Some(PathTypeOf(PrefixSlot(t)));
      SlotTypeMisaligned(t);
    }
  }

  /** The type at a path's documented slot is the path itself only for the shooters. */
  lemma SlotTypeMisaligned(t: PathType)
    ensures PathTypeOf(PrefixSlot(t)) == t <==> t == Shooters
  {
    match t
    case Routines =>
    case Sprites =>
    case Generators =>
    case Shooters =>
    case List =>
    case Asm =>
    case Extended =>
    case Cluster =>
  }

  /** The path an option selects, as `print_help` documents it. */
  function PathOption(arg: string): (r: Option<PathType>)
    ensures r.Some? ==> PathPrefix(r.value) == arg
    ensures r.None? ==> forall t :: PathPrefix(t) != arg
  {
    match PrefixIndex(PATH_PREFIXES, arg, 0)
    case None => None
    case Some(i) => Some(DOCUMENTED_ORDER[i])
  }

  /**
   * Which path a path option sets: `AsWritten` is the code of `parse_cmd_line_args`, the i-th
   * prefix setting `(PathType)i`; `Documented` is the mapping `print_help`
   * describes. The settings model keeps both so the parser can be stated
   * either way.
   */
  datatype PathMapping = AsWritten | Documented

  /** The path option `arg` selects under mapping `m`; both mappings accept the same options. */
  function PathLookup(m: PathMapping, arg: string): (r: Option<PathType>)
    ensures r.Some? <==> PathOption(arg).Some?
    ensures r.Some? && m == AsWritten ==> PATH_PREFIXES[PathIndex(r.value)] == arg
    ensures r.Some? && m == Documented ==> PathPrefix(r.value) == arg
  {
    match m
    case AsWritten => PathOptionAsWritten(arg)
    case Documented => PathOption(arg)
  }

  /** Every documented option selects its own path and no other. */
  lemma PathOptionSelectsDocumentedPath(t: PathType)
    ensures PathOption(PathPrefix(t)) == Some(t)
  {
    PathPrefixesDistinct();
    PrefixIndexOfDistinct(PATH_PREFIXES, PrefixSlot(t));
  }

  /** The option `print_help` documents for each append file. */
  function ExtPrefix(t: ExtType): string {
    match t
    case Ssc => "-ssc"
    case Mwt => "-mwt"
    case Mw2 => "-mw2"
    case S16 => "-s16"
  }

  /** `parse_cmd_line_args`: the i-th prefix sets `m_Extensions[(ExtType)i]`. */
  function ExtOption(arg: string): (r: Option<ExtType>)
    ensures r.Some? ==> EXT_PREFIXES[ExtIndex(r.value)] == arg
    ensures r.None? ==> forall k :: 0 <= k < |EXT_PREFIXES| ==> EXT_PREFIXES[k] != arg
  {
    match PrefixIndex(EXT_PREFIXES, arg, 0)
    case None => None
    case Some(i) => Some(ExtTypeOf(i))
  }

  /** Unlike the path table, the extension table is in `ExtType` order. */
  lemma ExtPrefixesAligned(t: ExtType)
    ensures ExtOption(ExtPrefix(t)) == Some(t)
  {
    ExtPrefixesDistinct();
    assert EXT_PREFIXES[ExtIndex(t)] == ExtPrefix(t);
    PrefixIndexOfDistinct(EXT_PREFIXES, ExtIndex(t));
  }

  // ---------------------------------------------------------------- PixiConfig

  const VERSION: int := 0x32
  const DEFAULT_ROUTINES: int := 100
  const MAX_ROUTINES: int := 310

  /** `m_meimei`: the MeiMei options. */
  datatype MeiMeiFlags = MeiMeiFlags(always: bool, debug: bool, keep: bool)

  /** The values of a `PixiConfig`'s members. */
  datatype Settings = Settings(
    paths: Paths,
    extensions: Extensions,
    keepFiles: bool,
    perLevel: bool,
    disable255Sprites: bool,
    extMod: bool,
    disableMeiMei: bool,
    warnings: bool,
    debug: bool,
    routines: int,
    pixiExe: string,
    romName: string,
    asmDir: string,
    asmDirPath: string,
    meimei: MeiMeiFlags)
  {
    /** The members no command-line option assigns. */
    predicate SameNames(t: Settings) {
      pixiExe == t.pixiExe && romName == t.romName && asmDir == t.asmDir && asmDirPath == t.asmDirPath
    }

    predicate RoutinesInRange() {
      DEFAULT_ROUTINES <= routines <= MAX_ROUTINES
    }
  }

  /** `PixiConfig()`: every member at its default initialiser. */
  const DEFAULT_SETTINGS: Settings :=
    Settings(DEFAULT_PATHS, DEFAULT_EXTENSIONS, false, false, false, true, false, false, false,
             DEFAULT_ROUTINES, "", "", "", "", MeiMeiFlags(false, false, false))

  /** `require_next(iter, end)`: the argument after `args[0]`, fatal when there is none. */
  function RequireNext(args: seq<string>): (r: Result<string>)
    requires |args| > 0
    ensures r.Ok? <==> |args| >= 2
    ensures r.Ok? ==> r.value == args[1]
    ensures r.Err? ==> r.fault == PixiError("Requiring next parameter for " + args[0] + " failed\n")
  {
    if |args| < 2 then Err(PixiError("Requiring next parameter for " + args[0] + " failed\n")) else Ok(args[1])
  }

  predicate IsHelp(arg: string) { arg == "-h" || arg == "--help" }

  /** The options that take no value, as an update of the settings; `None` for any other argument. */
  function FlagOption(s: Settings, arg: string): (r: Option<Settings>)
    ensures r.Some? ==> r.value.SameNames(s) && r.value.routines == s.routines
  {
    if arg == "-d" || arg == "--debug" then Some(s.(debug := true))
    else if arg == "-k" then Some(s.(keepFiles := true))
    else if arg == "-pl" then Some(s.(perLevel := true))
    else if arg == "-npl" then Some(s.(perLevel := false))
    else if arg == "-d255spl" then Some(s.(disable255Sprites := true))
    else if arg == "-w" then Some(s.(warnings := true))
    else if arg == "-ext-off" then Some(s.(extMod := false))
    else if arg == "-meimei-a" then Some(s.(meimei := s.meimei.(always := true)))
    else if arg == "-meimei-d" then Some(s.(meimei := s.meimei.(debug := true)))
    else if arg == "-meimei-k" then Some(s.(meimei := s.meimei.(keep := true)))
    else if arg == "-meimei-off" then Some(s.(disableMeiMei := true))
    else None
  }

  /** The options that consume the next argument. */
  predicate TakesValue(arg: string) {
    arg == "-nr" || PathOption(arg).Some? || ExtOption(arg).Some?
  }

  /** A value option applied to its value `next`. */
  function ValueOption(m: PathMapping, s: Settings, arg: string, next: string): (r: Settings)
    requires TakesValue(arg)
    ensures r.SameNames(s)
    ensures s.RoutinesInRange() ==> r.RoutinesInRange()
    ensures arg == "-nr" ==> r == s.(routines := Clamp(CLib.Atoi(next), DEFAULT_ROUTINES, MAX_ROUTINES))
    ensures arg != "-nr" && PathOption(arg).Some? ==> r == s.(paths := s.paths.With(PathLookup(m, arg).value, next))
    ensures arg != "-nr" && PathOption(arg).None? ==> r == s.(extensions := s.extensions.With(ExtOption(arg).value, next))
  {
    if arg == "-nr" then s.(routines := Clamp(CLib.Atoi(next), DEFAULT_ROUTINES, MAX_ROUTINES))
    else match PathLookup(m, arg)
      case Some(t) => s.(paths := s.paths.With(t, next))
      case None => s.(extensions := s.extensions.With(ExtOption(arg).value, next))
  }

  /**
   * One iteration of `parse_cmd_line_args` at `args[0]`: the new settings
   * and how many arguments it consumed. The options that take no value
   * are tested first; "-nr" sits among them in the source, which changes
   * nothing because no flag is spelled "-nr".
   */
  function ApplyOption(m: PathMapping, s: Settings, args: seq<string>): (r: Result<(Settings, nat)>)
    requires |args| > 0
  {
    var arg := args[0];
    if IsHelp(arg) then Err(Help)
    else match FlagOption(s, arg)
      case Some(t) => Ok((t, 1))
      case None =>
        if TakesValue(arg) then
          var next :- RequireNext(args);
          Ok((ValueOption(m, s, arg, next), 2))
        else Err(PixiError("Invalid command line option \"" + arg + "\"\n"))
  }

  /** "-nr" is not one of the flags, so testing the flags first keeps the source's behaviour. */
  lemma RoutinesOptionIsNotAFlag(s: Settings)
    ensures FlagOption(s, "-nr").None?
  {
  }

  /**
   * An option fails exactly when it asks for help, is unknown, or lacks its
   * value; a step that succeeds consumes one argument for a flag and two
   * for an option with a value, and keeps the names and the routine range.
   */
  lemma ApplyOptionCases(m: PathMapping, s: Settings, args: seq<string>)
    requires |args| > 0
    ensures var r := ApplyOption(m, s, args);
      && (r.Err? <==> IsHelp(args[0]) || (FlagOption(s, args[0]).None? && (!TakesValue(args[0]) || |args| < 2)))
      && (IsHelp(args[0]) ==> r == Err(Help))
      && (r.Err? && !IsHelp(args[0]) ==> ExitOf(r.fault) == Status(1))
      && (r.Ok? ==> 1 <= r.value.1 <= |args| && r.value.1 <= 2)
      && (r.Ok? ==> r.value.0.SameNames(s) && (s.RoutinesInRange() ==> r.value.0.RoutinesInRange()))
  {
  }

  /** `parse_cmd_line_args(vargv)`: the options left to right. */
  function ParseArgs(m: PathMapping, s: Settings, args: seq<string>): (r: Result<Settings>)
    decreases |args|
  {
    if |args| == 0 then Ok(s)
    else
      var step :- ApplyOption(m, s, args);
      ApplyOptionCases(m, s, args);
      ParseArgs(m, step.0, args[step.1..])
  }

  /** A step that succeeds on a prefix of the arguments does the same on the whole list. */
  lemma ApplyOptionPrefix(m: PathMapping, s: Settings, a: seq<string>, b: seq<string>)
    requires |a| > 0 && ApplyOption(m, s, a).Ok?
    ensures ApplyOption(m, s, a + b) == ApplyOption(m, s, a)
  {
    ApplyOptionCases(m, s, a);
    assert (a + b)[0] == a[0];
    if |a| >= 2 {
      assert (a + b)[1] == a[1];
    }
  }

  /**
   * Options are processed strictly left to right: parsing `a + b` is parsing
   * `a` and then parsing `b` from the settings `a` left.
   */
  lemma {:induction false} ParseArgsConcat(m: PathMapping, s: Settings, a: seq<string>, b: seq<string>)
    requires ParseArgs(m, s, a).Ok?
    ensures ParseArgs(m, s, a + b) == ParseArgs(m, ParseArgs(m, s, a).value, b)
    decreases |a|
  {
    if |a| == 0 {
      assert a + b == b;
    } else {
      ApplyOptionPrefix(m, s, a, b);
      ApplyOptionCases(m, s, a);
      var step := ApplyOption(m, s, a).value;
      assert (a + b)[step.1..] == a[step.1..] + b;
      ParseArgsConcat(m, step.0, a[step.1..], b);
    }
  }

  /** The last of "-pl" and "-npl" wins: "-npl" after "-pl" turns the flag off... */
  lemma PerLevelLastWins(m: PathMapping, s: Settings)
    ensures ParseArgs(m, s, ["-pl", "-npl"]) == Ok(s.(perLevel := false))
  {
    assert ["-pl", "-npl"][1..] == ["-npl"];
    assert ["-npl"][1..] == [];
  }

  /** ...and "-pl" after "-npl" turns it on. */
  lemma PerLevelLastWinsOn(m: PathMapping, s: Settings)
    ensures ParseArgs(m, s, ["-npl", "-pl"]) == Ok(s.(perLevel := true))
  {
    assert ["-npl", "-pl"][1..] == ["-pl"];
    assert ["-pl"][1..] == [];
  }

  /** A path option followed by its value sets the path the mapping selects, and nothing else. */
  lemma PathOptionApplies(m: PathMapping, s: Settings, arg: string, x: string)
    requires PathOption(arg).Some?
    ensures ParseArgs(m, s, [arg, x]) == Ok(s.(paths := s.paths.With(PathLookup(m, arg).value, x)))
  {
    assert FlagOption(s, arg).None? && !IsHelp(arg) && arg != "-nr" by {
      match PathOption(arg).value
      case Routines =>
      case Sprites =>
      case Generators =>
      case Shooters =>
      case List =>
      case Asm =>
      case Extended =>
      case Cluster =>
    }
    var args := [arg, x];
    assert ApplyOption(m, s, args) == Ok((s.(paths := s.paths.With(PathLookup(m, arg).value, x)), 2));
    assert args[2..] == [];
  }

  /**
   * A path option and its value: as written, `PathPrefix(t)` sets the path
   * of its slot's enumerator and leaves `t` itself alone unless `t` is the
   * shooters; under the documented mapping it sets `t`.
   */
  lemma PathOptionParses(s: Settings, t: PathType, x: string)
    ensures ParseArgs(AsWritten, s, [PathPrefix(t), x]) == Ok(s.(paths := s.paths.With(PathTypeOf(PrefixSlot(t)), x)))
    ensures ParseArgs(Documented, s, [PathPrefix(t), x]) == Ok(s.(paths := s.paths.With(t, x)))
    ensures t != Shooters ==> ParseArgs(AsWritten, s, [PathPrefix(t), x]).value.paths.At(t) == s.paths.At(t)
  {
    PathPrefixesDistinct();
    PrefixIndexOfDistinct(PATH_PREFIXES, PrefixSlot(t));
    SlotTypeMisaligned(t);
    assert PathLookup(AsWritten, PathPrefix(t)) == Some(PathTypeOf(PrefixSlot(t)));
    assert PathLookup(Documented, PathPrefix(t)) == Some(t);
    PathOptionApplies(AsWritten, s, PathPrefix(t), x);
    PathOptionApplies(Documented, s, PathPrefix(t), x);
  }

  /** "-l mylist.txt" as written sets the routines directory, and the list file stays where it was. */
  lemma ListOptionSetsRoutinesAsWritten(s: Settings, x: string)
    ensures ParseArgs(AsWritten, s, ["-l", x]) == Ok(s.(paths := s.paths.With(Routines, x)))
    ensures ParseArgs(AsWritten, s, ["-l", x]).value.paths.list == s.paths.list
  {
    PathOptionParses(s, List, x);
  }

  /**
   * Whatever the options say, the routine limit stays within 100..310 and
   * the executable, ROM and asm directory names are untouched.
   */
  lemma {:induction false} ParseArgsKeepsInvariants(m: PathMapping, s: Settings, args: seq<string>)
    requires s.RoutinesInRange()
    ensures ParseArgs(m, s, args).Ok? ==> ParseArgs(m, s, args).value.RoutinesInRange()
    ensures ParseArgs(m, s, args).Ok? ==> ParseArgs(m, s, args).value.SameNames(s)
    decreases |args|
  {
    if |args| > 0 && ApplyOption(m, s, args).Ok? {
      ApplyOptionCases(m, s, args);
      var step := ApplyOption(m, s, args).value;
      ParseArgsKeepsInvariants(m, step.0, args[step.1..]);
    }
  }

  /** `xs` without its first occurrence of `x`, if any. */
  function RemoveFirst(xs: seq<string>, x: string): seq<string>
  {
    if |xs| == 0 then []
    else if xs[0] == x then xs[1..]
    else [xs[0]] + RemoveFirst(xs[1..], x)
  }

  /** Without an occurrence nothing is removed. */
  lemma {:induction false} RemoveFirstAbsent(xs: seq<string>, x: string)
    requires x !in xs
    ensures RemoveFirst(xs, x) == xs
  {
    if |xs| > 0 {
      assert xs[0] != x;
      assert x !in xs[1..];
      RemoveFirstAbsent(xs[1..], x);
    }
  }

  /** When `k` is the first occurrence, removing splits the list around it. */
  lemma {:induction false} RemoveFirstSplits(xs: seq<string>, x: string, k: nat)
    requires k < |xs| && xs[k] == x && x !in xs[..k]
    ensures RemoveFirst(xs, x) == xs[..k] + xs[k + 1..]
  {
    if k > 0 {
      assert xs[0] == xs[..k][0];
      assert xs[1..][..k - 1] == xs[1..k];
      assert x !in xs[1..][..k - 1];
      RemoveFirstSplits(xs[1..], x, k - 1);
      assert xs[..k] == [xs[0]] + xs[1..k];
    }
  }

  /** The `find_if` and `erase` of `transform_args`: drops the first `x` and says whether there was one. */
  method EraseFirst(xs: seq<string>, x: string) returns (r: seq<string>, found: bool)
    ensures r == RemoveFirst(xs, x)
    ensures found <==> x in xs
  {
    var k := 0;
    while k < |xs| && xs[k] != x
      invariant k <= |xs|
      invariant x !in xs[..k]
    {
      assert xs[..k + 1] == xs[..k] + [xs[k]];
      k := k + 1;
    }
    if k < |xs| {
      RemoveFirstSplits(xs, x, k);
      r, found := xs[..k] + xs[k + 1..], true;
    } else {
      assert xs[..k] == xs;
      RemoveFirstAbsent(xs, x);
      r, found := xs, false;
    }
  }

  /** `PixiExe` with a leading "./" removed. */
  function StripDotSlash(exe: string): (r: string)
    ensures |exe| >= 2 && exe[..2] == "./" ==> exe == "./" + r
    ensures !(|exe| >= 2 && exe[..2] == "./") ==> r == exe
  {
    if |exe| >= 2 && exe[0] == '.' && exe[1] == '/' then exe[2..] else exe
  }

  /** `PixiConfig`: the settings every stage of the insertion reads. */
  class PixiConfig {
    var paths: Paths
    var extensions: Extensions
    var keepFiles: bool
    var perLevel: bool
    var disable255Sprites: bool
    var extMod: bool
    var disableMeiMei: bool
    var warnings: bool
    var debug: bool
    var routines: int
    var pixiExe: string
    var romName: string
    var asmDir: string
    var asmDirPath: string
    var meimei: MeiMeiFlags

    function Snapshot(): Settings
      reads this
    {
      Settings(paths, extensions, keepFiles, perLevel, disable255Sprites, extMod, disableMeiMei,
               warnings, debug, routines, pixiExe, romName, asmDir, asmDirPath, meimei)
    }

    /** `PixiConfig() = default`. */
    constructor ()
      ensures Snapshot() == DEFAULT_SETTINGS
    {
      paths := DEFAULT_PATHS;
      extensions := DEFAULT_EXTENSIONS;
      keepFiles := false;
      perLevel := false;
      disable255Sprites := false;
      extMod := true;
      disableMeiMei := false;
      warnings := false;
      debug := false;
      routines := DEFAULT_ROUTINES;
      pixiExe := "";
      romName := "";
      asmDir := "";
      asmDirPath := "";
      meimei := MeiMeiFlags(false, false, false);
    }

    /** Assigns every member from `s`. */
    method Assign(s: Settings)
      modifies this
      ensures Snapshot() == s
    {
      AssignOptions(s);
      AssignSwitches(s);
      AssignNames(s);
    }

    method AssignOptions(s: Settings)
      modifies this
      ensures Snapshot() == old(Snapshot()).(paths := s.paths, extensions := s.extensions, keepFiles := s.keepFiles,
        perLevel := s.perLevel, disable255Sprites := s.disable255Sprites)
    {
      paths := s.paths;
      extensions := s.extensions;
      keepFiles := s.keepFiles;
      perLevel := s.perLevel;
      disable255Sprites := s.disable255Sprites;
    }

    method AssignSwitches(s: Settings)
      modifies this
      ensures Snapshot() == old(Snapshot()).(extMod := s.extMod, disableMeiMei := s.disableMeiMei,
        warnings := s.warnings, debug := s.debug, routines := s.routines)
    {
      extMod := s.extMod;
      disableMeiMei := s.disableMeiMei;
      warnings := s.warnings;
      debug := s.debug;
      routines := s.routines;
    }

    method AssignNames(s: Settings)
      modifies this
      ensures Snapshot() == old(Snapshot()).(pixiExe := s.pixiExe, romName := s.romName, asmDir := s.asmDir,
        asmDirPath := s.asmDirPath, meimei := s.meimei)
    {
      pixiExe := s.pixiExe;
      romName := s.romName;
      asmDir := s.asmDir;
      asmDirPath := s.asmDirPath;
      meimei := s.meimei;
    }

    /**
     * `transform_args(argc, argv)`: the executable name without "./", the ROM
     * name from the last argument, the options in between with the first
     * "-no-config" taken out, and whether there was one.
     */
    method TransformArgs(argv: seq<string>) returns (vargv: seq<string>, overwrite: bool)
      requires |argv| >= 2
      modifies this
      ensures Snapshot() == old(Snapshot()).(pixiExe := StripDotSlash(argv[0]), romName := argv[|argv| - 1])
      ensures overwrite <==> "-no-config" in argv[1..|argv| - 1]
      ensures vargv == RemoveFirst(argv[1..|argv| - 1], "-no-config")
    {
      var exe := argv[0];
      if |exe| >= 2 && exe[0] == '.' && exe[1] == '/' {
        exe := exe[2..];
      }
      assert exe == StripDotSlash(argv[0]);
      Assign(Snapshot().(pixiExe := exe, romName := argv[|argv| - 1]));
      vargv, overwrite := EraseFirst(argv[1..|argv| - 1], "-no-config");
    }

    /** `parse_config_file(overwrite)`: with `overwrite` no configuration file is read at all. */
    method ParseConfigFile(overwrite: bool, loaded: Settings)
      modifies this
      ensures overwrite ==> Snapshot() == old(Snapshot())
      ensures !overwrite ==> Snapshot() == ApplyConfigFile(old(Snapshot()), loaded)
    {
      if overwrite {
        return;
      }
      Assign(ApplyConfigFile(Snapshot(), loaded));
    }

    /** `parse_cmd_line_args(vargv)`: one step per option, stopping at the first error. */
    method ParseCmdLineArgs(vargv: seq<string>) returns (r: Result<()>)
      modifies this
      ensures ParseArgs(Documented, old(Snapshot()), vargv).Err? ==> r == Err(ParseArgs(Documented, old(Snapshot()), vargv).fault)
      ensures ParseArgs(Documented, old(Snapshot()), vargv).Ok? ==> r.Ok? && Snapshot() == ParseArgs(Documented, old(Snapshot()), vargv).value
    {
      var i := 0;
      while i < |vargv|
        invariant i <= |vargv|
        invariant ParseArgs(Documented, Snapshot(), vargv[i..]) == ParseArgs(Documented, old(Snapshot()), vargv)
        decreases |vargv| - i
      {
        var step := ApplyOption(Documented, Snapshot(), vargv[i..]);
        if step.Err? {
          return Err(step.fault);
        }
        ApplyOptionCases(Documented, Snapshot(), vargv[i..]);
        Assign(step.value.0);
        assert vargv[i..][step.value.1..] == vargv[i + step.value.1..];
        i := i + step.value.1;
      }
      assert vargv[i..] == [];
      return Ok(());
    }

    /** `areConfigFlagsToggled()`. */
    function AreConfigFlagsToggled(): (b: bool)
      reads this
      ensures b
    {
      perLevel || disable255Sprites || true
    }

    /** `create_config_file()`: "config.asm" in the asm directory, defining the two per-level flags. */
    method CreateConfigFile() returns (file: MemoryFile.MemoryFile<char>)
      ensures fresh(file)
      ensures file.path == asmDirPath + "/config.asm" && file.meimeiKeep
      ensures file.data == ConfigAsm(perLevel, disable255Sprites)
    {
      file := new MemoryFile.MemoryFile<char>(asmDirPath + "/config.asm");
      if AreConfigFlagsToggled() {
        var first := "!PerLevel = " + Digit(perLevel) + "\n";
        file.InsertByteData(first, |first|);
        assert file.data == first by { assert first[..|first|] == first; }
        var second := "!Disable255SpritesPerLevel = " + Digit(disable255Sprites);
        file.InsertByteData(second, |second|);
        assert file.data == first + second by { assert second[..|second|] == second; }
      }
    }
  }

  /** `parse_noargs_config_file` once the TOML file is read: the values it assigns. */
  function ApplyConfigFile(s: Settings, loaded: Settings): (r: Settings)
    ensures r.SameNames(s)
    ensures r.paths == loaded.paths && r.extensions == loaded.extensions && r.routines == loaded.routines
  {
    s.(paths := loaded.paths, extensions := loaded.extensions, meimei := loaded.meimei,
       keepFiles := loaded.keepFiles, perLevel := loaded.perLevel, disable255Sprites := loaded.disable255Sprites,
       extMod := loaded.extMod, disableMeiMei := loaded.disableMeiMei, warnings := loaded.warnings,
       debug := loaded.debug, routines := loaded.routines)
  }

  /** `{:d}` of `(int)b`. */
  function Digit(b: bool): string { if b then "1" else "0" }

  /** The text of config.asm. */
  function ConfigAsm(perLevel: bool, disable255Sprites: bool): (t: string)
    ensures |t| == 44
  {
    "!PerLevel = " + Digit(perLevel) + "\n" + "!Disable255SpritesPerLevel = " + Digit(disable255Sprites)
  }

  /** The two flags can be read back from the generated text: character 12 and character 43. */
  lemma ConfigAsmDeterminesFlags(p: bool, d: bool)
    ensures ConfigAsm(p, d)[12] == (if p then '1' else '0')
    ensures ConfigAsm(p, d)[43] == (if d then '1' else '0')
    ensures forall p', d' :: ConfigAsm(p, d) == ConfigAsm(p', d') ==> p == p' && d == d'
  {
    forall p', d' | ConfigAsm(p, d) == ConfigAsm(p', d')
      ensures p == p' && d == d'
    {
      assert ConfigAsm(p', d')[12] == (if p' then '1' else '0');
      assert ConfigAsm(p', d')[43] == (if d' then '1' else '0');
    }
  }

  // ---------------------------------------------------------------- shared routines

  /** A shared routine: its name without ".asm" and its offset in the routine pointer table. */
  datatype Routine = Routine(name: string, offset: nat)

  const TOO_MANY_ROUTINES: string := "More than 100 routines located. Please remove some. \n"

  /**
   * The loop of `create_shared_patch` over the routine folder's file names
   * at `count` routines found: before each file the count is checked
   * against 100, and only ".asm" files become routines.
   */
  function RoutinesFrom(names: seq<string>, count: nat): (r: Result<seq<Routine>>)
    decreases |names|
  {
    if |names| == 0 then Ok([])
    else if count > DEFAULT_ROUTINES then Err(PixiError(TOO_MANY_ROUTINES))
    else if Util.NameEndsWithAsmExtension(names[0]) then
      var rest :- RoutinesFrom(names[1..], count + 1);
      Ok([Routine(names[0][..|names[0]| - 4], 3 * count)] + rest)
    else RoutinesFrom(names[1..], count)
  }

  /** The ".asm" names among `names`, in order. */
  function AsmNames(names: seq<string>): (r: seq<string>)
    ensures |r| <= |names|
    ensures forall k :: 0 <= k < |r| ==> Util.NameEndsWithAsmExtension(r[k])
  {
    if |names| == 0 then []
    else (if Util.NameEndsWithAsmExtension(names[0]) then [names[0]] else []) + AsmNames(names[1..])
  }

  /**
   * Routine k is the k-th ".asm" file without its extension, at offset
   * 3 * (count + k); once routines are found, at most 101 are counted.
   */
  lemma {:induction false} RoutinesAreAsmFiles(names: seq<string>, count: nat)
    requires RoutinesFrom(names, count).Ok?
    ensures var r := RoutinesFrom(names, count).value;
      && |r| == |AsmNames(names)|
      && (|r| == 0 || count + |r| <= DEFAULT_ROUTINES + 1)
      && forall k :: 0 <= k < |r| ==>
           r[k].offset == 3 * (count + k) && r[k].name + ".asm" == AsmNames(names)[k]
    decreases |names|
  {
    if |names| > 0 {
      var n := names[0];
      if Util.NameEndsWithAsmExtension(n) {
        RoutinesAreAsmFiles(names[1..], count + 1);
        var r := RoutinesFrom(names, count).value;
        var rest := RoutinesFrom(names[1..], count + 1).value;
        assert r == [Routine(n[..|n| - 4], 3 * count)] + rest;
        assert n[..|n| - 4] + ".asm" == n by {
          assert n[|n| - 4..] == ".asm";
        }
        assert AsmNames(names) == [n] + AsmNames(names[1..]);
      } else {
        RoutinesAreAsmFiles(names[1..], count);
        assert AsmNames(names) == AsmNames(names[1..]);
      }
    }
  }

  /** The definitions registered for one routine; `escaped` is the routine folder with its '!' escaped. */
  function RoutineText(escaped: string, r: Routine): string {
    "!" + r.name + " = 0\nmacro " + r.name + "()\n\t%include_once(\"" + escaped + r.name + ".asm\", "
      + r.name + ", $" + CLib.HexPadded(r.offset, 2) + ")\n\tJSL " + r.name + "\nendmacro\n"
  }

  /** The definitions of all routines, in order. */
  function RoutinesText(escaped: string, rs: seq<Routine>): string {
    if |rs| == 0 then "" else RoutinesText(escaped, rs[..|rs| - 1]) + RoutineText(escaped, rs[|rs| - 1])
  }

  /** `routines` in front of a result's routines; errors are kept. */
  function Prepend(routines: seq<Routine>, r: Result<seq<Routine>>): Result<seq<Routine>> {
    match r
    case Ok(rest) => Ok(routines + rest)
    case Err(f) => Err(f)
  }

  /** No routines in front leave a result as it is. */
  lemma PrependNothing(r: Result<seq<Routine>>)
    ensures Prepend([], r) == r
  {
    if r.Ok? {
      assert [] + r.value == r.value;
    }
  }

  /** Past the routine limit the remaining names end the registration with an error. */
  lemma PrependStops(names: seq<string>, routines: seq<Routine>, count: nat)
    requires |names| > 0 && count > DEFAULT_ROUTINES
    ensures Prepend(routines, RoutinesFrom(names, count)) == Err(PixiError(TOO_MANY_ROUTINES))
  { }

  /** One name of the registration loop: registered when it is a ".asm" file, skipped otherwise. */
  lemma PrependStep(names: seq<string>, routines: seq<Routine>, count: nat)
    requires |names| > 0 && count <= DEFAULT_ROUTINES
    ensures Util.NameEndsWithAsmExtension(names[0]) ==>
      Prepend(routines, RoutinesFrom(names, count))
        == Prepend(routines + [Routine(names[0][..|names[0]| - 4], 3 * count)], RoutinesFrom(names[1..], count + 1))
    ensures !Util.NameEndsWithAsmExtension(names[0]) ==>
      Prepend(routines, RoutinesFrom(names, count)) == Prepend(routines, RoutinesFrom(names[1..], count))
  {
    if Util.NameEndsWithAsmExtension(names[0]) && RoutinesFrom(names[1..], count + 1).Ok? {
      var routine := Routine(names[0][..|names[0]| - 4], 3 * count);
      var rest := RoutinesFrom(names[1..], count + 1).value;
      assert routines + ([routine] + rest) == (routines + [routine]) + rest;
    }
  }

  /** Registering one more routine appends its definitions to the text. */
  lemma RoutinesTextAppend(escaped: string, routines: seq<Routine>, r: Routine)
    ensures RoutinesText(escaped, routines + [r]) == RoutinesText(escaped, routines) + RoutineText(escaped, r)
  {
    assert (routines + [r])[..|routines|] == routines;
  }

  /**
   * `create_shared_patch`'s registration loop over the routine folder's file
   * names (`None` when the folder does not exist), with the text it appends
   * after the `include_once` macro.
   */
  method RegisterRoutines(routinePath: string, listing: Option<seq<string>>) returns (r: Result<seq<Routine>>, text: string)
    ensures listing.None? ==> r == Err(PixiError("Couldn't open folder \"" + routinePath + "\" for reading."))
    ensures listing.Some? ==> r == RoutinesFrom(listing.value, 0)
    ensures r.Ok? ==> text == RoutinesText(Util.Escaped(routinePath, "\\\\\\!"), r.value)
  {
    text := "";
    if listing.None? {
      return Err(PixiError("Couldn't open folder \"" + routinePath + "\" for reading.")), text;
    }
    var escaped := Util.EscapeDefines(routinePath, "\\\\\\!");
    r, text := RegisterNames(listing.value, escaped);
  }

  /** One name of the registration loop: a ".asm" file becomes the next routine, at three bytes per routine. */
  method NextRoutine(names: seq<string>, routines: seq<Routine>, count: nat) returns (next: Option<Routine>)
    requires |names| > 0 && count <= DEFAULT_ROUTINES
    ensures next.Some? <==> Util.NameEndsWithAsmExtension(names[0])
    ensures next.Some? ==>
      Prepend(routines, RoutinesFrom(names, count)) == Prepend(routines + [next.value], RoutinesFrom(names[1..], count + 1))
    ensures next.None? ==>
      Prepend(routines, RoutinesFrom(names, count)) == Prepend(routines, RoutinesFrom(names[1..], count))
  {
    PrependStep(names, routines, count);
    if Util.NameEndsWithAsmExtension(names[0]) {
      next := Some(Routine(names[0][..|names[0]| - 4], 3 * count));
    } else {
      next := None;
    }
  }

  /** Appends the definitions of one more routine `r` to `text`. */
  method AppendRoutineText(escaped: string, routines: seq<Routine>, text: string, r: Routine) returns (text': string)
    requires text == RoutinesText(escaped, routines)
    ensures text' == RoutinesText(escaped, routines + [r])
  {
    RoutinesTextAppend(escaped, routines, r);
    text' := text + RoutineText(escaped, r);
  }

  /** The registration loop proper over the names `names`, with the escaped routine folder `escaped`. */
  method RegisterNames(names: seq<string>, escaped: string) returns (r: Result<seq<Routine>>, text: string)
    ensures r == RoutinesFrom(names, 0)
    ensures r.Ok? ==> text == RoutinesText(escaped, r.value)
  {
    text := "";
    var routines: seq<Routine> := [];
    var count: nat := 0;
    var i := 0;
    assert names[0..] == names;
    PrependNothing(RoutinesFrom(names, 0));
    while i < |names|
      invariant i <= |names|
      invariant RoutinesFrom(names, 0) == Prepend(routines, RoutinesFrom(names[i..], count))
      invariant text == RoutinesText(escaped, routines)
    {
      if count > DEFAULT_ROUTINES {
        PrependStops(names[i..], routines, count);
        return Err(PixiError(TOO_MANY_ROUTINES)), text;
      }
      var next := NextRoutine(names[i..], routines, count);
      if next.Some? {
        text := AppendRoutineText(escaped, routines, text, next.value);
        routines := routines + [next.value];
        count := count + 1;
      }
      assert names[i..][1..] == names[i + 1..];
      i := i + 1;
    }
    assert names[i..] == [];
    assert routines + [] == routines;
    return Ok(routines), text;
  }
}
