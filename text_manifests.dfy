/** The two line-oriented manifests: `ConfigurationManifest.parse`
    (RADS/parsers.py:19-47) and `SolutionManifest.parse`
    (RADS/parsers.py:79-173). A file is the sequence of lines `readline`
    returns, each with its newline; a call past the last line returns "".
    A count line must be non-empty ASCII digits, an item line non-empty once
    stripped, and the first lines must match exactly. */
module TextManifests {
  import opened Failures
  import opened Decimal
  import opened Text

  const CONFIGURATION_HEADER: string := "RADS Configuration Manifest\n"
  const SOLUTION_HEADER: string := "RADS Solution Manifest\n"
  const FILE_VERSION: string := "1.0.0.0"
  const LOCALE: string := "en_gb"

  /** The exact version and locale lines strip to the values `parse` keeps. */
  lemma VersionLine()
    ensures Strip(FILE_VERSION + "\n") == FILE_VERSION
  {
    StripLine(FILE_VERSION);
  }

  lemma LocaleLine()
    ensures Strip(LOCALE + "\n") == LOCALE
  {
    StripLine(LOCALE);
  }

  /** What the `k`-th `fp.readline()` returns. */
  function LineAt(lines: seq<string>, k: nat): (c: string)
    ensures k >= |lines| ==> c == ""
  {
    if k < |lines| then lines[k] else ""
  }

  /** A line read with `fp.readline().strip()` that must not be empty: a
      name, a version or a list item. */
  function ItemAt(lines: seq<string>, k: nat): (r: Result<string>)
    ensures r.Ok? <==> Strip(LineAt(lines, k)) != []
    ensures r.Ok? ==> r.value == Strip(LineAt(lines, k)) && IsItem(r.value)
    ensures r.Err? ==> r.error == EmptyField
  {
    hide Strip;
    var c := Strip(LineAt(lines, k));
    if |c| == 0 then Err(EmptyField) else Ok(c)
  }

  /** A line read with `fp.readline().strip()` that must pass
      `0 != len(c) and c.isdigit()`, then read with `int(c)`. */
  function CountAt(lines: seq<string>, k: nat): (r: Result<nat>)
    ensures r.Ok? <==> IsDigits(Strip(LineAt(lines, k)))
    ensures r.Ok? ==> r.value == Value(Strip(LineAt(lines, k)))
    ensures r.Err? ==> r.error == BadNumber
  {
    hide Strip, IsDigits, Value;
    var c := Strip(LineAt(lines, k));
    if !IsDigits(c) then Err(BadNumber) else Ok(Value(c))
  }

  /** A line past the end of the file is never accepted. */
  lemma PastEndRejected(lines: seq<string>, k: nat)
    requires k >= |lines|
    ensures ItemAt(lines, k) == Err(EmptyField)
    ensures CountAt(lines, k) == Err(BadNumber)
  {
    hide ItemAt, CountAt, Strip;
    StripEmpty();
  }

  /** The outcome of reading `n` item lines from line `k` on. */
  function ItemResults(lines: seq<string>, k: nat, n: nat): (rs: seq<Result<string>>)
    ensures |rs| == n && forall i :: 0 <= i < n ==> rs[i] == ItemAt(lines, k + i)
  {
    seq(n, i requires 0 <= i < n => ItemAt(lines, k + i))
  }

  /** `n` item lines from line `k` on; the first empty one aborts. */
  function ItemsAt(lines: seq<string>, k: nat, n: nat): (r: Result<seq<string>>)
    ensures r.Ok? ==> |r.value| == n &&
                      forall i :: 0 <= i < n ==> IsItem(r.value[i]) && r.value[i] == Strip(LineAt(lines, k + i))
    ensures r.Err? ==> r.error == EmptyField
  {
    hide ItemAt, Strip, TrimStart, TrimEnd, IsSpace, IsItem, IsDigits, Value, Show;
    var rs := ItemResults(lines, k, n);
    var r := Collect(rs);
    if r.Err? then CollectFirstError(rs); r else r
  }

  /** The loop of lines 41-45 (and lines 166-171): read `n` items in turn. */
  method ReadItems(lines: seq<string>, k: nat, n: nat) returns (r: Result<seq<string>>)
    ensures r == ItemsAt(lines, k, n)
  {
    hide ItemAt, Strip, TrimStart, TrimEnd, IsSpace, IsItem, IsDigits, Value, Show;
    ghost var rs := ItemResults(lines, k, n);
    var items: seq<string> := [];
    var i := 0;
    assert rs[..0] == [];
    while i < n
      invariant i <= n
      invariant Collect(rs[..i]) == Ok(items)
    {
      var c := ItemAt(lines, k + i);
      if c.Err? {
        CollectFails(rs, i, items);
        return Err(c.error);
      }
      CollectSnoc(rs, i, items);
      items := items + [c.value];
      i := i + 1;
    }
    assert rs[..n] == rs;
    r := Ok(items);
  }

  // ---------------------------------------------------------------------------
  // `ConfigurationManifest` (lines 19-47)

  /** The attributes `parse` sets. */
  datatype ConfigurationManifest = ConfigurationManifest(fileVersion: string, locale: string, projects: seq<string>)

  /** What any successfully parsed configuration manifest holds. */
  predicate ValidConfigurationManifest(m: ConfigurationManifest)
  {
    m.fileVersion == FILE_VERSION && m.locale == LOCALE &&
    forall i :: 0 <= i < |m.projects| ==> IsItem(m.projects[i])
  }

  /** Lines 19-47: three exact lines, a count line, then that many item
      lines. Whatever follows is never read. */
  function DecodeConfiguration(lines: seq<string>): (r: Result<ConfigurationManifest>)
    ensures LineAt(lines, 0) != CONFIGURATION_HEADER ==> r == Err(HeaderMismatch)
    ensures LineAt(lines, 0) == CONFIGURATION_HEADER && LineAt(lines, 1) != FILE_VERSION + "\n" ==>
              r == Err(VersionMismatch)
    ensures (LineAt(lines, 0) == CONFIGURATION_HEADER && LineAt(lines, 1) == FILE_VERSION + "\n" &&
             LineAt(lines, 2) != LOCALE + "\n") ==> r == Err(LocaleMismatch)
    ensures r.Ok? ==> LineAt(lines, 0) == CONFIGURATION_HEADER && LineAt(lines, 1) == FILE_VERSION + "\n" &&
                      LineAt(lines, 2) == LOCALE + "\n" && ValidConfigurationManifest(r.value)
    ensures r.Ok? ==> var c := Strip(LineAt(lines, 3));
                      IsDigits(c) && |r.value.projects| == Value(c) &&
                      forall i :: 0 <= i < |r.value.projects| ==> r.value.projects[i] == Strip(LineAt(lines, 4 + i))
  {
    hide ItemAt, CountAt, ItemsAt, Strip, TrimStart, TrimEnd, IsSpace, IsItem, IsDigits, Value, Show;
    if LineAt(lines, 0) != CONFIGURATION_HEADER then Err(HeaderMismatch)
    else if LineAt(lines, 1) != FILE_VERSION + "\n" then Err(VersionMismatch)
    else if LineAt(lines, 2) != LOCALE + "\n" then Err(LocaleMismatch)
    else match CountAt(lines, 3)
      case Err(e) => Err(e)
      case Ok(n) =>
        match ItemsAt(lines, 4, n)
        case Err(e) => Err(e)
        case Ok(projects) =>
          VersionLine();
          LocaleLine();
          Ok(ConfigurationManifest(Strip(LineAt(lines, 1)), Strip(LineAt(lines, 2)), projects))
  }

  /** `ConfigurationManifest.parse` as the source runs it. */
  method ParseConfiguration(lines: seq<string>) returns (r: Result<ConfigurationManifest>)
    ensures r == DecodeConfiguration(lines)
  {
    hide ItemAt, CountAt, ItemsAt, Strip, TrimStart, TrimEnd, IsSpace, IsItem, IsDigits, Value, Show;
    var c := LineAt(lines, 0);
    if c != CONFIGURATION_HEADER {
      return Err(HeaderMismatch);
    }
    c := LineAt(lines, 1);
    if c != FILE_VERSION + "\n" {
      return Err(VersionMismatch);
    }
    var fileVersion := Strip(c);
    c := LineAt(lines, 2);
    if c != LOCALE + "\n" {
      return Err(LocaleMismatch);
    }
    var locale := Strip(c);
    var n := CountAt(lines, 3);
    if n.Err? {
      return Err(n.error);
    }
    var projects := ReadItems(lines, 4, n.value);
    if projects.Err? {
      return Err(projects.error);
    }
    r := Ok(ConfigurationManifest(fileVersion, locale, projects.value));
  }

  /** The lines of `items`, one per line. */
  function Lined(items: seq<string>): (lines: seq<string>)
    ensures |lines| == |items| && forall i :: 0 <= i < |items| ==> lines[i] == items[i] + "\n"
  {
    seq(|items|, i requires 0 <= i < |items| => items[i] + "\n")
  }

  /** The configuration manifest file that holds `m`, counts written as
      `str(n)`. */
  function RenderConfiguration(m: ConfigurationManifest): (lines: seq<string>)
    ensures |lines| == 4 + |m.projects|
  {
    [CONFIGURATION_HEADER, m.fileVersion + "\n", m.locale + "\n", Show(|m.projects|) + "\n"] + Lined(m.projects)
  }

  /** Parsing the written file gives back every valid manifest. */
  lemma ConfigurationRoundTrip(m: ConfigurationManifest)
    requires ValidConfigurationManifest(m)
    ensures DecodeConfiguration(RenderConfiguration(m)) == Ok(m)
  {
    var lines := RenderConfiguration(m);
    CountLine(lines, 3, |m.projects|);
    assert Holds(lines, 4, Lined(m.projects)) by {
      assert lines[4..4 + |m.projects|] == Lined(m.projects);
    }
    ItemsLines(lines, 4, m.projects);
  }

  /** Lines after the ones a successful parse reads change nothing: the
      parse never reads past the end of what it accepted. */
  lemma ConfigurationIgnoresTrailingLines(lines: seq<string>, more: seq<string>)
    requires DecodeConfiguration(lines).Ok?
    ensures DecodeConfiguration(lines + more) == DecodeConfiguration(lines)
  {
    hide ItemsAt, Strip, IsDigits, Value;
    var all := lines + more;
    var n := |DecodeConfiguration(lines).value.projects|;
    CountWithinFile(lines, 3);
    ItemsWithinFile(lines, 4, n);
    ItemsAtSameLines(lines, all, 4, n);
  }

  /** An accepted count line is a line of the file. */
  lemma CountWithinFile(lines: seq<string>, k: nat)
    requires CountAt(lines, k).Ok?
    ensures k < |lines|
  {
    hide ItemAt, CountAt, Strip;
    StripEmpty();
  }

  /** Accepted item lines are lines of the file. */
  lemma ItemsWithinFile(lines: seq<string>, k: nat, n: nat)
    requires ItemsAt(lines, k, n).Ok?
    ensures n == 0 || k + n <= |lines|
  {
    hide ItemAt, CountAt, Strip;
    if n > 0 {
      StripEmpty();
      assert ItemsAt(lines, k, n).value[n - 1] == Strip(LineAt(lines, k + (n - 1)));
    }
  }

  /** Two files that agree on the lines `k .. k + n` give the same items. */
  lemma ItemsAtSameLines(a: seq<string>, b: seq<string>, k: nat, n: nat)
    requires forall j :: k <= j < k + n ==> LineAt(a, j) == LineAt(b, j)
    ensures ItemsAt(a, k, n) == ItemsAt(b, k, n)
  {
    hide Strip;
    var ra, rb := ItemResults(a, k, n), ItemResults(b, k, n);
    forall i | 0 <= i < n
      ensures ra[i] == rb[i]
    {
      assert LineAt(a, k + i) == LineAt(b, k + i);
    }
    assert ra == rb;
  }

  // ---------------------------------------------------------------------------
  // Lines at a position

  /** Line `k` on holds `block`. */
  predicate Holds(lines: seq<string>, k: nat, block: seq<string>)
  {
    k + |block| <= |lines| && lines[k..k + |block|] == block
  }

  lemma HoldsLine(lines: seq<string>, k: nat, block: seq<string>, i: nat)
    requires Holds(lines, k, block) && i < |block|
    ensures LineAt(lines, k + i) == block[i]
  {
    assert lines[k..k + |block|][i] == lines[k + i];
  }

  lemma HoldsSplit(lines: seq<string>, k: nat, a: seq<string>, b: seq<string>)
    requires Holds(lines, k, a + b)
    ensures Holds(lines, k, a) && Holds(lines, k + |a|, b)
  {
    assert lines[k..k + |a|] == (a + b)[..|a|];
    assert lines[k + |a|..k + |a| + |b|] == (a + b)[|a|..];
  }

  /** An item written on its own line reads back. */
  lemma ItemLine(lines: seq<string>, k: nat, s: string)
    requires LineAt(lines, k) == s + "\n" && IsItem(s)
    ensures ItemAt(lines, k) == Ok(s)
  {
    StripLine(s);
  }

  /** A count written as `str(n)` on its own line reads back as `n`. */
  lemma CountLine(lines: seq<string>, k: nat, n: nat)
    requires LineAt(lines, k) == Show(n) + "\n"
    ensures CountAt(lines, k) == Ok(n)
  {
    var s := Show(n);
    assert IsItem(s) by {
      assert IsDigit(s[0]) && IsDigit(s[|s| - 1]);
    }
    StripLine(s);
    ValueOfShow(n);
  }

  lemma ItemsLines(lines: seq<string>, k: nat, items: seq<string>)
    requires Holds(lines, k, Lined(items))
    requires forall i :: 0 <= i < |items| ==> IsItem(items[i])
    ensures ItemsAt(lines, k, |items|) == Ok(items)
  {
    hide ItemAt, CountAt, Strip, TrimStart, TrimEnd, IsSpace, IsItem, IsDigits, Value, Show;
    var rs := ItemResults(lines, k, |items|);
    forall i | 0 <= i < |items|
      ensures rs[i] == Ok(items[i])
    {
      HoldsLine(lines, k, Lined(items), i);
      ItemLine(lines, k + i, items[i]);
    }
    CollectSucceeds(rs);
    var r := Collect(rs);
    assert r.value == items;
  }

  // ---------------------------------------------------------------------------
  // `SolutionManifest` (lines 79-173)

  /** A `Project`: name, version, priority and flags. */
  datatype Project = Project(name: string, version: string, priority: nat, flags: nat)

  /** A `Configuration`: name, flags, and the names of its projects. */
  datatype Configuration = Configuration(name: string, flags: nat, projects: seq<string>)

  /** The attributes `parse` sets. */
  datatype SolutionManifest = SolutionManifest(fileVersion: string, name: string, version: string,
                                               projects: seq<Project>, configurations: seq<Configuration>)

  predicate ValidProject(p: Project)
  {
    IsItem(p.name) && IsItem(p.version)
  }

  predicate ValidConfiguration(c: Configuration)
  {
    IsItem(c.name) && forall i :: 0 <= i < |c.projects| ==> IsItem(c.projects[i])
  }

  /** What any successfully parsed solution manifest holds. */
  predicate ValidSolutionManifest(m: SolutionManifest)
  {
    m.fileVersion == FILE_VERSION && IsItem(m.name) && IsItem(m.version) &&
    (forall i :: 0 <= i < |m.projects| ==> ValidProject(m.projects[i])) &&
    (forall i :: 0 <= i < |m.configurations| ==> ValidConfiguration(m.configurations[i]))
  }

  /** Lines 110-134: one project, four lines from line `k` on. The version
      is stripped a second time, which changes nothing. */
  function ProjectAt(lines: seq<string>, k: nat): (r: Result<Project>)
    ensures r.Ok? ==> ValidProject(r.value)
    ensures r.Err? ==> r.error == EmptyField || r.error == BadNumber
  {
    hide ItemAt, CountAt, Strip, TrimStart, TrimEnd, IsSpace, IsItem, IsDigits, Value, Show;
    match ItemAt(lines, k)
    case Err(e) => Err(e)
    case Ok(name) =>
      match ItemAt(lines, k + 1)
      case Err(e) => Err(e)
      case Ok(version) =>
        match CountAt(lines, k + 2)
        case Err(e) => Err(e)
        case Ok(priority) =>
          match CountAt(lines, k + 3)
          case Err(e) => Err(e)
          case Ok(flags) => Ok(Project(name, version, priority, flags))
  }

  function ProjectResults(lines: seq<string>, k: nat, n: nat): (rs: seq<Result<Project>>)
    ensures |rs| == n && forall i :: 0 <= i < n ==> rs[i] == ProjectAt(lines, k + 4 * i)
  {
    seq(n, i requires 0 <= i < n => ProjectAt(lines, k + 4 * i))
  }

  /** `n` projects from line `k` on; the first bad one aborts. */
  function ProjectsAt(lines: seq<string>, k: nat, n: nat): (r: Result<seq<Project>>)
    ensures r.Ok? ==> |r.value| == n &&
                      forall i :: 0 <= i < n ==> ProjectAt(lines, k + 4 * i) == Ok(r.value[i])
  {
    hide ProjectAt, ItemAt, CountAt, Strip, ValidProject, IsItem, IsSpace, TrimStart, TrimEnd;
    var rs := ProjectResults(lines, k, n);
    var r := Collect(rs);
    assert r.Ok? ==> forall i :: 0 <= i < n ==> rs[i] == Ok(r.value[i]);
    r
  }

  /** The loop of lines 108-136. */
  method ReadProjects(lines: seq<string>, k: nat, n: nat) returns (r: Result<seq<Project>>)
    ensures r == ProjectsAt(lines, k, n)
  {
    hide ProjectAt, ItemAt, CountAt, ValidProject, Strip, TrimStart, TrimEnd, IsSpace, IsItem, IsDigits, Value, Show;
    ghost var rs := ProjectResults(lines, k, n);
    var projects: seq<Project> := [];
    var i := 0;
    assert rs[..0] == [];
    while i < n
      invariant i <= n
      invariant Collect(rs[..i]) == Ok(projects)
    {
      var p := ProjectAt(lines, k + 4 * i);
      if p.Err? {
        CollectFails(rs, i, projects);
        return Err(p.error);
      }
      CollectSnoc(rs, i, projects);
      projects := projects + [p.value];
      i := i + 1;
    }
    assert rs[..n] == rs;
    r := Ok(projects);
  }

  /** Lines 146-172: one configuration from line `k` on, and the line after
      it. */
  function ConfigurationAt(lines: seq<string>, k: nat): (r: Result<(Configuration, nat)>)
    ensures r.Ok? ==> ValidConfiguration(r.value.0) && r.value.1 == k + 3 + |r.value.0.projects|
  {
    hide ItemAt, CountAt, ItemsAt, Strip, TrimStart, TrimEnd, IsSpace, IsItem, IsDigits, Value, Show;
    match ItemAt(lines, k)
    case Err(e) => Err(e)
    case Ok(name) =>
      match CountAt(lines, k + 1)
      case Err(e) => Err(e)
      case Ok(flags) =>
        match CountAt(lines, k + 2)
        case Err(e) => Err(e)
        case Ok(n) =>
          match ItemsAt(lines, k + 3, n)
          case Err(e) => Err(e)
          case Ok(names) => Ok((Configuration(name, flags, names), k + 3 + n))
  }

  /** `n` configurations from line `k` on, one after the other, and the line
      after the last. */
  function ConfigurationsAt(lines: seq<string>, k: nat, n: nat): (r: Result<(seq<Configuration>, nat)>)
    ensures r.Ok? ==> |r.value.0| == n && r.value.1 >= k + 3 * n &&
                      forall i :: 0 <= i < n ==> ValidConfiguration(r.value.0[i])
  {
    hide ConfigurationAt, Strip, TrimStart, TrimEnd, IsSpace, IsItem, IsDigits, Value, Show;
    if n == 0 then Ok(([], k))
    else match ConfigurationsAt(lines, k, n - 1)
      case Err(e) => Err(e)
      case Ok((cs, next)) =>
        match ConfigurationAt(lines, next)
        case Err(e) => Err(e)
        case Ok((c, after)) => Ok((cs + [c], after))
  }

  /** Once a configuration fails, the ones after it are never read. */
  lemma {:induction false} ConfigurationsKeepError(lines: seq<string>, k: nat, i: nat, n: nat)
    requires i <= n && ConfigurationsAt(lines, k, i).Err?
    ensures ConfigurationsAt(lines, k, n) == ConfigurationsAt(lines, k, i)
    decreases n
  {
    hide ConfigurationAt, ItemAt, CountAt, ItemsAt, ValidConfiguration, Strip, TrimStart, TrimEnd, IsSpace, IsItem, IsDigits, Value, Show;
    if i < n {
      ConfigurationsKeepError(lines, k, i, n - 1);
    }
  }

  /** One pass of the loop of lines 144-173: a configuration's name, flags
      and count lines, then the nested loop of lines 166-171. */
  method ReadConfiguration(lines: seq<string>, k: nat) returns (r: Result<(Configuration, nat)>)
    ensures r == ConfigurationAt(lines, k)
  {
    hide ItemAt, CountAt, ItemsAt, Strip, TrimStart, TrimEnd, IsSpace, IsItem, IsDigits, Value, Show;
    var name := ItemAt(lines, k);
    if name.Err? {
      return Err(name.error);
    }
    var flags := CountAt(lines, k + 1);
    if flags.Err? {
      return Err(flags.error);
    }
    var count := CountAt(lines, k + 2);
    if count.Err? {
      return Err(count.error);
    }
    var names := ReadItems(lines, k + 3, count.value);
    if names.Err? {
      return Err(names.error);
    }
    r := Ok((Configuration(name.value, flags.value, names.value), k + 3 + count.value));
  }

  /** The loop of lines 144-173. */
  method ReadConfigurations(lines: seq<string>, k: nat, n: nat) returns (r: Result<(seq<Configuration>, nat)>)
    ensures r == ConfigurationsAt(lines, k, n)
  {
    hide ConfigurationAt, ValidConfiguration, ItemAt, CountAt, ItemsAt, Strip, TrimStart, TrimEnd, IsSpace, IsItem, IsDigits, Value, Show;
    var configurations: seq<Configuration> := [];
    var next := k;
    var i := 0;
    while i < n
      invariant i <= n
      invariant ConfigurationsAt(lines, k, i) == Ok((configurations, next))
    {
      var c := ReadConfiguration(lines, next);
      if c.Err? {
        ConfigurationsKeepError(lines, k, i + 1, n);
        return Err(c.error);
      }
      configurations := configurations + [c.value.0];
      next := c.value.1;
      i := i + 1;
    }
    r := Ok((configurations, next));
  }

  /** Lines 79-173: two exact lines, then the rest of the file. Whatever
      follows what the parse reads is never read. */
  function DecodeSolution(lines: seq<string>): (r: Result<SolutionManifest>)
    ensures LineAt(lines, 0) != SOLUTION_HEADER ==> r == Err(HeaderMismatch)
    ensures LineAt(lines, 0) == SOLUTION_HEADER && LineAt(lines, 1) != FILE_VERSION + "\n" ==>
              r == Err(VersionMismatch)
    ensures r.Ok? ==> LineAt(lines, 0) == SOLUTION_HEADER && LineAt(lines, 1) == FILE_VERSION + "\n" &&
                      ValidSolutionManifest(r.value)
  {
    hide SolutionBody, ItemAt, CountAt, ProjectsAt, ConfigurationsAt, Strip, TrimStart, TrimEnd, IsSpace, IsItem, IsDigits, Value, Show;
    if LineAt(lines, 0) != SOLUTION_HEADER then Err(HeaderMismatch)
    else if LineAt(lines, 1) != FILE_VERSION + "\n" then Err(VersionMismatch)
    else
      VersionLine();
      SolutionBody(lines, Strip(LineAt(lines, 1)))
  }

  /** Lines 86-173, once the version line is checked: the solution's name
      and version, the projects with their count line before them, then the
      configurations with theirs. */
  function SolutionBody(lines: seq<string>, fileVersion: string): (r: Result<SolutionManifest>)
    ensures r.Ok? ==> r.value.fileVersion == fileVersion
    ensures r.Ok? && fileVersion == FILE_VERSION ==> ValidSolutionManifest(r.value)
    ensures r.Ok? ==> r.value.name == Strip(LineAt(lines, 2)) && r.value.version == Strip(LineAt(lines, 3))
    ensures r.Ok? ==> var c := Strip(LineAt(lines, 4));
                      IsDigits(c) && |r.value.projects| == Value(c) &&
                      forall i :: 0 <= i < |r.value.projects| ==> ProjectAt(lines, 5 + 4 * i) == Ok(r.value.projects[i])
  {
    hide ProjectAt, ConfigurationAt, LineAt, ItemAt, CountAt, ProjectsAt, ConfigurationsAt, Strip, TrimStart, TrimEnd, IsSpace, IsItem, IsDigits, Value, Show;
    match ItemAt(lines, 2)
    case Err(e) => Err(e)
    case Ok(name) =>
      match ItemAt(lines, 3)
      case Err(e) => Err(e)
      case Ok(version) =>
        match CountAt(lines, 4)
        case Err(e) => Err(e)
        case Ok(np) =>
          match ProjectsAt(lines, 5, np)
          case Err(e) => Err(e)
          case Ok(projects) =>
            match CountAt(lines, 5 + 4 * np)
            case Err(e) => Err(e)
            case Ok(nc) =>
              match ConfigurationsAt(lines, 6 + 4 * np, nc)
              case Err(e) => Err(e)
              case Ok((configurations, _)) =>
                Ok(SolutionManifest(fileVersion, name, version, projects, configurations))
  }

  /** `SolutionManifest.parse` as the source runs it. */
  method ParseSolution(lines: seq<string>) returns (r: Result<SolutionManifest>)
    ensures r == DecodeSolution(lines)
  {
    hide ItemAt, CountAt, ProjectsAt, ConfigurationsAt, Strip, TrimStart, TrimEnd, IsSpace, IsItem, IsDigits, Value, Show;
    var c := LineAt(lines, 0);
    if c != SOLUTION_HEADER {
      return Err(HeaderMismatch);
    }
    c := LineAt(lines, 1);
    if c != FILE_VERSION + "\n" {
      return Err(VersionMismatch);
    }
    var fileVersion := Strip(c);
    var name := ItemAt(lines, 2);
    if name.Err? {
      return Err(name.error);
    }
    var version := ItemAt(lines, 3);
    if version.Err? {
      return Err(version.error);
    }
    var np := CountAt(lines, 4);
    if np.Err? {
      return Err(np.error);
    }
    var projects := ReadProjects(lines, 5, np.value);
    if projects.Err? {
      return Err(projects.error);
    }
    var nc := CountAt(lines, 5 + 4 * np.value);
    if nc.Err? {
      return Err(nc.error);
    }
    var configurations := ReadConfigurations(lines, 6 + 4 * np.value, nc.value);
    if configurations.Err? {
      return Err(configurations.error);
    }
    r := Ok(SolutionManifest(fileVersion, name.value, version.value, projects.value, configurations.value.0));
  }

  // ---------------------------------------------------------------------------
  // Writing a solution manifest back

  function ProjectLines(p: Project): (lines: seq<string>)
    ensures |lines| == 4
  {
    [p.name + "\n", p.version + "\n", Show(p.priority) + "\n", Show(p.flags) + "\n"]
  }

  function ProjectsLines(ps: seq<Project>): (lines: seq<string>)
    ensures |lines| == 4 * |ps|
  {
    if ps == [] then [] else ProjectsLines(ps[..|ps| - 1]) + ProjectLines(ps[|ps| - 1])
  }

  function ConfigurationLines(c: Configuration): (lines: seq<string>)
    ensures |lines| == 3 + |c.projects|
  {
    [c.name + "\n", Show(c.flags) + "\n", Show(|c.projects|) + "\n"] + Lined(c.projects)
  }

  function ConfigurationsLines(cs: seq<Configuration>): seq<string>
  {
    if cs == [] then [] else ConfigurationsLines(cs[..|cs| - 1]) + ConfigurationLines(cs[|cs| - 1])
  }

  /** The solution manifest file that holds `m`, counts written as `str(n)`. */
  function RenderSolution(m: SolutionManifest): seq<string>
  {
    [SOLUTION_HEADER, m.fileVersion + "\n"] + SolutionBodyLines(m)
  }

  /** Everything after the version line. */
  function SolutionBodyLines(m: SolutionManifest): seq<string>
  {
    [m.name + "\n", m.version + "\n", Show(|m.projects|) + "\n"] +
    ProjectsLines(m.projects) + [Show(|m.configurations|) + "\n"] + ConfigurationsLines(m.configurations)
  }

  lemma ProjectLinesRoundTrip(lines: seq<string>, k: nat, p: Project)
    requires Holds(lines, k, ProjectLines(p)) && ValidProject(p)
    ensures ProjectAt(lines, k) == Ok(p)
  {
    hide ItemAt, CountAt, Strip, TrimStart, TrimEnd, IsSpace, IsItem, IsDigits, Value, Show;
    var block := ProjectLines(p);
    HoldsLine(lines, k, block, 0);
    HoldsLine(lines, k, block, 1);
    HoldsLine(lines, k, block, 2);
    HoldsLine(lines, k, block, 3);
    ItemLine(lines, k, p.name);
    ItemLine(lines, k + 1, p.version);
    CountLine(lines, k + 2, p.priority);
    CountLine(lines, k + 3, p.flags);
  }

  lemma {:induction false} ProjectsLinesRoundTrip(lines: seq<string>, k: nat, ps: seq<Project>)
    requires Holds(lines, k, ProjectsLines(ps))
    requires forall i :: 0 <= i < |ps| ==> ValidProject(ps[i])
    ensures ProjectsAt(lines, k, |ps|) == Ok(ps)
    decreases |ps|
  {
    hide Holds, ProjectAt, ItemAt, CountAt, ProjectLines, ValidProject, Strip, TrimStart, TrimEnd, IsSpace, IsItem, IsDigits, Value, Show;
    if ps != [] {
      var n := |ps| - 1;
      var init := ps[..n];
      assert ProjectsLines(ps) == ProjectsLines(init) + ProjectLines(ps[n]);
      HoldsSplit(lines, k, ProjectsLines(init), ProjectLines(ps[n]));
      ProjectsLinesRoundTrip(lines, k, init);
      ProjectLinesRoundTrip(lines, k + 4 * n, ps[n]);
      var rs := ProjectResults(lines, k, |ps|);
      assert rs[..n] == ProjectResults(lines, k, n);
      assert Collect(rs[..n]) == Ok(init);
      CollectSnoc(rs, n, init);
      assert rs[..n + 1] == rs;
      assert init + [ps[n]] == ps;
    }
  }

  lemma ConfigurationLinesRoundTrip(lines: seq<string>, k: nat, c: Configuration)
    requires Holds(lines, k, ConfigurationLines(c)) && ValidConfiguration(c)
    ensures ConfigurationAt(lines, k) == Ok((c, k + |ConfigurationLines(c)|))
  {
    hide ItemAt, CountAt, ItemsAt, Strip, TrimStart, TrimEnd, IsSpace, IsItem, IsDigits, Value, Show;
    var head := [c.name + "\n", Show(c.flags) + "\n", Show(|c.projects|) + "\n"];
    HoldsSplit(lines, k, head, Lined(c.projects));
    HoldsLine(lines, k, head, 0);
    HoldsLine(lines, k, head, 1);
    HoldsLine(lines, k, head, 2);
    ItemLine(lines, k, c.name);
    CountLine(lines, k + 1, c.flags);
    CountLine(lines, k + 2, |c.projects|);
    ItemsLines(lines, k + 3, c.projects);
  }

  lemma {:induction false} ConfigurationsLinesRoundTrip(lines: seq<string>, k: nat, cs: seq<Configuration>)
    requires Holds(lines, k, ConfigurationsLines(cs))
    requires forall i :: 0 <= i < |cs| ==> ValidConfiguration(cs[i])
    ensures ConfigurationsAt(lines, k, |cs|) == Ok((cs, k + |ConfigurationsLines(cs)|))
    decreases |cs|
  {
    hide ConfigurationAt, ConfigurationLines, ValidConfiguration, Strip, TrimStart, TrimEnd, IsSpace, IsItem, IsDigits, Value, Show;
    if cs != [] {
      var n := |cs| - 1;
      var init := cs[..n];
      HoldsSplit(lines, k, ConfigurationsLines(init), ConfigurationLines(cs[n]));
      ConfigurationsLinesRoundTrip(lines, k, init);
      ConfigurationLinesRoundTrip(lines, k + |ConfigurationsLines(init)|, cs[n]);
      assert init + [cs[n]] == cs;
    }
  }

  /** Parsing the written file gives back every valid manifest. */
  lemma SolutionRoundTrip(m: SolutionManifest)
    requires ValidSolutionManifest(m)
    ensures DecodeSolution(RenderSolution(m)) == Ok(m)
  {
    hide SolutionBody, SolutionBodyLines, ItemAt, CountAt, ProjectsAt, ConfigurationsAt, ProjectsLines, ConfigurationsLines, Strip, TrimStart, TrimEnd, IsSpace, IsItem, IsDigits, Value, Show;
    var lines := RenderSolution(m);
    var body := SolutionBodyLines(m);
    assert Holds(lines, 2, body) by {
      assert lines[2..2 + |body|] == body;
    }
    VersionLine();
    SolutionBodyRoundTrip(lines, m);
  }

  lemma SolutionBodyRoundTrip(lines: seq<string>, m: SolutionManifest)
    requires ValidSolutionManifest(m)
    requires Holds(lines, 2, SolutionBodyLines(m))
    ensures SolutionBody(lines, m.fileVersion) == Ok(m)
  {
    hide ItemAt, CountAt, ProjectsAt, ConfigurationsAt, ProjectsLines, ConfigurationsLines, Strip, TrimStart, TrimEnd, IsSpace, IsItem, IsDigits, Value, Show;
    var head := [m.name + "\n", m.version + "\n", Show(|m.projects|) + "\n"];
    var ps := ProjectsLines(m.projects);
    var count := [Show(|m.configurations|) + "\n"];
    var cs := ConfigurationsLines(m.configurations);
    var np, nc := |m.projects|, |m.configurations|;
    HoldsSplit(lines, 2, head + ps + count, cs);
    HoldsSplit(lines, 2, head + ps, count);
    HoldsSplit(lines, 2, head, ps);
    HoldsLine(lines, 2, head, 0);
    HoldsLine(lines, 2, head, 1);
    HoldsLine(lines, 2, head, 2);
    HoldsLine(lines, 5 + 4 * np, count, 0);
    ItemLine(lines, 2, m.name);
    ItemLine(lines, 3, m.version);
    CountLine(lines, 4, np);
    ProjectsLinesRoundTrip(lines, 5, m.projects);
    CountLine(lines, 5 + 4 * np, nc);
    ConfigurationsLinesRoundTrip(lines, 6 + 4 * np, m.configurations);
  }
}
