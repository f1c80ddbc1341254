/**
 * The npm package inspector command line: the hand-written `--key=value` flag
 * parser, the column widths and layout of its tables, the "last N versions" and
 * "first N dependencies" selections, the usage errors with their exit code, and
 * the router. The registry (`npm view <pkg> <field>`, trimmed, or "" when the
 * command fails) and the kilobyte formatting of sizes are parameters.
 */
module Inspector {
  import opened Wrappers
  import opened Text
  import opened JsArray
  import opened QuasiJson

  // ---------- flags ----------

  /** What `parseFlags` returns: `_` holds the plain arguments, the other keys the flags. */
  datatype Flags = Flags(positional: seq<string>, named: map<string, string>)

  predicate IsFlag(a: string) { |a| >= 2 && a[..2] == "--" }

  /** The text before the first `=` of a flag, once `--` is removed. */
  function FlagKey(a: string): string
    requires IsFlag(a)
  {
    Split(a[2..], '=')[0]
  }

  /** The text between the first and the second `=` of a flag, or `true` when there is no `=`. */
  function FlagValue(a: string): string
    requires IsFlag(a)
  {
    var parts := Split(a[2..], '=');
    if |parts| > 1 then parts[1] else "true"
  }

  /** The arguments that are not flags, in order. */
  function Positionals(argv: seq<string>): seq<string>
  {
    if argv == [] then []
    else
      var last := argv[|argv| - 1];
      Positionals(argv[..|argv| - 1]) + (if IsFlag(last) then [] else [last])
  }

  /** The flags, each key set in turn, so that a later flag overrides an earlier one. */
  function NamedFlags(argv: seq<string>): map<string, string>
  {
    if argv == [] then map[]
    else
      var last := argv[|argv| - 1];
      var earlier := NamedFlags(argv[..|argv| - 1]);
      if IsFlag(last) then earlier[FlagKey(last) := FlagValue(last)] else earlier
  }

  /** `parseFlags`: one pass over the arguments, pushing plain ones and assigning flags. */
  method ParseFlags(argv: seq<string>) returns (flags: Flags)
    ensures flags.positional == Positionals(argv)
    ensures flags.named == NamedFlags(argv)
  {
    var positional: seq<string> := [];
    var named: map<string, string> := map[];
    for i := 0 to |argv|
      invariant positional == Positionals(argv[..i])
      invariant named == NamedFlags(argv[..i])
    {
      var a := argv[i];
      assert argv[..i + 1][..i] == argv[..i];
      if IsFlag(a) {
        named := named[FlagKey(a) := FlagValue(a)];
      } else {
        positional := positional + [a];
      }
    }
    assert argv[..|argv|] == argv;
    flags := Flags(positional, named);
  }

  lemma {:induction false} PositionalsAppend(a: seq<string>, b: seq<string>)
    ensures Positionals(a + b) == Positionals(a) + Positionals(b)
    decreases |b|
  {
    if b == [] {
      assert a + b == a;
    } else {
      var init := b[..|b| - 1];
      assert (a + b)[..|a + b| - 1] == a + init;
      PositionalsAppend(a, init);
    }
  }

  /** The plain arguments are exactly the arguments that are not flags. */
  lemma {:induction false} PositionalsMembers(argv: seq<string>)
    ensures forall x :: x in Positionals(argv) <==> x in argv && !IsFlag(x)
    decreases |argv|
  {
    if argv != [] {
      var init := argv[..|argv| - 1];
      PositionalsMembers(init);
      assert argv == init + [argv[|argv| - 1]];
    }
  }

  /**
   * A flag key is set exactly when some flag names it, and then to the value of the
   * last flag that names it.
   */
  lemma {:induction false} LastFlagWins(argv: seq<string>, k: string, j: int)
    requires 0 <= j < |argv| && IsFlag(argv[j]) && FlagKey(argv[j]) == k
    requires forall i :: j < i < |argv| && IsFlag(argv[i]) ==> FlagKey(argv[i]) != k
    ensures k in NamedFlags(argv) && NamedFlags(argv)[k] == FlagValue(argv[j])
    decreases |argv|
  {
    var init := argv[..|argv| - 1];
    if j < |argv| - 1 {
      LastFlagWins(init, k, j);
    }
  }

  lemma {:induction false} UnsetFlag(argv: seq<string>, k: string)
    requires forall i :: 0 <= i < |argv| && IsFlag(argv[i]) ==> FlagKey(argv[i]) != k
    ensures k !in NamedFlags(argv)
    decreases |argv|
  {
    if argv != [] {
      UnsetFlag(argv[..|argv| - 1], k);
    }
  }

  /** `--k=v` sets `k` to `v`; whatever follows a second `=` is dropped. */
  lemma {:induction false} FlagWithValue(k: string, v: string, w: string)
    requires '=' !in k && '=' !in v && (w == [] || w[0] == '=')
    ensures IsFlag("--" + k + "=" + v + w)
    ensures FlagKey("--" + k + "=" + v + w) == k && FlagValue("--" + k + "=" + v + w) == v
  {
    var a := "--" + k + "=" + v + w;
    assert a[..2] == "--";
    var t := a[2..];
    assert t == k + ("=" + v + w);
    SplitAfterPiece(k, "=" + v + w, '=');
    var u := "=" + v + w;
    assert Split(u, '=') == [[]] + Split(u[1..], '=');
    assert u[1..] == v + w;
    SplitAfterPiece(v, w, '=');
    if w != [] {
      assert Split(w, '=')[0] == [];
    } else {
      assert Split(w, '=') == [[]];
    }
  }

  /** `--k` without `=` sets `k` to `true`. */
  lemma {:induction false} FlagWithoutValue(k: string)
    requires '=' !in k
    ensures IsFlag("--" + k) && FlagKey("--" + k) == k && FlagValue("--" + k) == "true"
  {
    var a := "--" + k;
    assert a[..2] == "--" && a[2..] == k;
    SplitAfterPiece(k, [], '=');
    assert k + [] == k;
  }

  /** `flags.json` is truthy: the flag is present with a non-empty value. */
  predicate JsonMode(flags: Flags) { "json" in flags.named && flags.named["json"] != "" }

  // ---------- selections ----------

  function NegateNumber(x: JsNumber): JsNumber
  {
    match x
    case NaN => NaN
    case Numeric(w) => Numeric(Negate(w))
  }

  /** `Number(text || fallback)`: an absent or empty flag gives the default. */
  function FlagNumber(flags: Flags, key: string, default: nat): (r: JsNumber)
    ensures key !in flags.named ==> r == Numeric(Fin(default))
    ensures key in flags.named && flags.named[key] == "" ==> r == Numeric(Fin(default))
    ensures key in flags.named && flags.named[key] != "" ==> r == NumberOf(flags.named[key])
  {
    if key in flags.named && flags.named[key] != "" then NumberOf(flags.named[key]) else Numeric(Fin(default))
  }

  /** `arr.slice(-limit)`. */
  function RecentVersions(all: seq<string>, limit: JsNumber): (r: seq<string>)
    ensures |r| <= |all| && r == all[|all| - |r|..]
  {
    SliceFrom(all, ToIntegerOrInfinity(NegateNumber(limit)))
  }

  /** A positive limit keeps the last `limit` versions in their order, all of them when there are fewer. */
  lemma {:induction false} RecentLast(all: seq<string>, n: int)
    requires n >= 1
    ensures RecentVersions(all, Numeric(Fin(n))) == all[|all| - Min(n, |all|)..]
    ensures n >= |all| ==> RecentVersions(all, Numeric(Fin(n))) == all
  {
    LastN(all, n);
    assert all[0..] == all;
  }

  /** A limit of 0, or one that is not a number, keeps every version (`slice(-0)`, `slice(NaN)`). */
  lemma {:induction false} RecentWhole(all: seq<string>, limit: JsNumber)
    requires limit == NaN || limit == Numeric(Fin(0))
    ensures RecentVersions(all, limit) == all
  {
    assert RelativeIndex(Fin(0), |all|) == 0;
    assert all[0..] == all;
  }

  /** Without `--limit`, or with `--limit=`, the last five versions are kept. */
  lemma {:induction false} RecentDefault(all: seq<string>, flags: Flags, key: string)
    requires key == "limit" && (key !in flags.named || flags.named[key] == "")
    ensures RecentVersions(all, FlagNumber(flags, key, 5)) == all[|all| - Min(5, |all|)..]
  {
    LastN(all, 5);
  }

  /** A flag made of digits reads as its decimal value. */
  lemma {:induction false} FlagDigits(flags: Flags, key: string, default: nat)
    requires key in flags.named && DigitsText(flags.named[key])
    ensures FlagNumber(flags, key, default) == Numeric(Fin(DecimalValue(flags.named[key])))
  {
    NumberOfDigits(flags.named[key]);
  }

  /** A limit of `n >= 0` keeps the last `n` versions, and `0` keeps them all. */
  lemma {:induction false} RecentCount(all: seq<string>, n: nat)
    ensures RecentVersions(all, Numeric(Fin(n))) == if n == 0 then all else all[|all| - Min(n, |all|)..]
  {
    if n == 0 {
      RecentWhole(all, Numeric(Fin(n)));
    } else {
      LastN(all, n);
    }
  }

  /** `--limit=<digits>` keeps the last that many versions; `--limit=0` keeps them all. */
  lemma {:induction false} RecentFromDigits(all: seq<string>, flags: Flags, key: string)
    requires key == "limit" && key in flags.named && DigitsText(flags.named[key])
    ensures var n := DecimalValue(flags.named[key]);
      RecentVersions(all, FlagNumber(flags, key, 5)) == if n == 0 then all else all[|all| - Min(n, |all|)..]
  {
    FlagDigits(flags, key, 5);
    RecentCount(all, DecimalValue(flags.named[key]));
  }

  predicate DigitsText(s: string) { |s| > 0 && AllDigits(s) }

  /** `--limit=abc` is `slice(NaN)`, which keeps every version. */
  lemma {:induction false} RecentFromWord(all: seq<string>, flags: Flags, key: string, word: string)
    requires key == "limit" && word == "abc" && key in flags.named && flags.named[key] == word
    ensures RecentVersions(all, FlagNumber(flags, key, 5)) == all
  {
    NumberOfWord(word);
    RecentWhole(all, NaN);
  }

  /** `entries.slice(0, max)`. */
  function FirstDeps(entries: seq<(string, string)>, max: JsNumber): (r: seq<(string, string)>)
    ensures |r| <= |entries| && r == entries[..|r|]
  {
    SliceTo(entries, ToIntegerOrInfinity(max))
  }

  /** A maximum of `n >= 0` keeps the first `n` dependencies in their order; a non-number keeps none. */
  lemma {:induction false} FirstN(entries: seq<(string, string)>, n: int)
    ensures n >= 0 ==> FirstDeps(entries, Numeric(Fin(n))) == entries[..Min(n, |entries|)]
    ensures n < 0 ==> FirstDeps(entries, Numeric(Fin(n))) == entries[..|entries| - Min(-n, |entries|)]
    ensures FirstDeps(entries, NaN) == []
  {
  }

  /** Without `--max` the first ten dependencies are kept; `--max=<digits>` keeps the first that many. */
  lemma {:induction false} FirstFromFlags(entries: seq<(string, string)>, flags: Flags)
    ensures "max" !in flags.named ==> FirstDeps(entries, FlagNumber(flags, "max", 10)) == entries[..Min(10, |entries|)]
    ensures "max" in flags.named && DigitsText(flags.named["max"]) ==>
      FirstDeps(entries, FlagNumber(flags, "max", 10)) == entries[..Min(DecimalValue(flags.named["max"]), |entries|)]
  {
    if "max" in flags.named && DigitsText(flags.named["max"]) {
      NumberOfDigits(flags.named["max"]);
    }
  }

  // ---------- tables ----------

  /** `String(r[c] ?? '')`: a missing cell is empty. */
  function CellText(row: seq<string>, i: nat): string
  {
    if i < |row| then row[i] else ""
  }

  /** `Math.max(c.length, ...rows.map(r => String(r[c] ?? '').length))`. */
  function ColumnWidth(cols: seq<string>, rows: seq<seq<string>>, i: nat): (w: nat)
    requires i < |cols|
    ensures w >= |cols[i]| && forall r :: r in rows ==> w >= |CellText(r, i)|
    ensures w == |cols[i]| || exists r :: r in rows && w == |CellText(r, i)|
  {
    if rows == [] then |cols[i]|
    else
      var init := rows[..|rows| - 1];
      var last := rows[|rows| - 1];
      assert rows == init + [last];
      var w := ColumnWidth(cols, init, i);
      if |CellText(last, i)| > w then |CellText(last, i)| else w
  }

  /** `colWidths`: each column is as wide as its widest text, header included, and no wider. */
  function Widths(cols: seq<string>, rows: seq<seq<string>>): (ws: seq<nat>)
    ensures |ws| == |cols|
    ensures forall i :: 0 <= i < |cols| ==> ws[i] >= |cols[i]|
    ensures forall i, r :: 0 <= i < |cols| && r in rows ==> ws[i] >= |CellText(r, i)|
    ensures forall i :: 0 <= i < |cols| ==> ws[i] == |cols[i]| || exists r :: r in rows && ws[i] == |CellText(r, i)|
  {
    seq(|cols|, i requires 0 <= i < |cols| => ColumnWidth(cols, rows, i))
  }

  /** `s.padEnd(w, ' ')`: spaces up to `w`; a longer text is left as it is. */
  function PadEnd(s: string, w: nat): (r: string)
    ensures |s| <= w ==> |r| == w && r[..|s|] == s
    ensures |s| <= w ==> forall i :: |s| <= i < w ==> r[i] == ' '
    ensures |s| > w ==> r == s
  {
    if |s| >= w then s else s + Repeat(' ', w - |s|)
  }

  /** `cell(v, w)`: the text padded to the column width, with one space either side. */
  function Cell(s: string, w: nat): string
  {
    [' '] + PadEnd(s, w) + [' ']
  }

  /** The horizontal rule over each column: its width plus the two padding spaces. */
  function Rules(ws: seq<nat>): (r: seq<string>)
    ensures |r| == |ws| && forall i :: 0 <= i < |ws| ==> |r[i]| == ws[i] + 2
  {
    seq(|ws|, i requires 0 <= i < |ws| => Repeat('─', ws[i] + 2))
  }

  /** Each cell of a row padded to its column; a missing cell is empty. */
  function Cells(ws: seq<nat>, row: seq<string>): (r: seq<string>)
    ensures |r| == |ws| && forall i :: 0 <= i < |ws| ==> r[i] == Cell(CellText(row, i), ws[i])
  {
    seq(|ws|, i requires 0 <= i < |ws| => Cell(CellText(row, i), ws[i]))
  }

  /** A border line: the rules joined and closed by the given glyphs. */
  function Border(ws: seq<nat>, left: char, mid: char, right: char): string
  {
    [left] + Join(Rules(ws), [mid]) + [right]
  }

  /** A text line: the cells separated and closed by `│`. */
  function RowText(ws: seq<nat>, row: seq<string>): string
  {
    ['│'] + Join(Cells(ws, row), ['│']) + ['│']
  }

  /** One text line per row, in order. */
  function BodyLines(ws: seq<nat>, rows: seq<seq<string>>): (r: seq<string>)
    ensures |r| == |rows| && forall k :: 0 <= k < |rows| ==> r[k] == RowText(ws, rows[k])
  {
    if rows == [] then [] else BodyLines(ws, rows[..|rows| - 1]) + [RowText(ws, rows[|rows| - 1])]
  }

  /** The lines `asTable` prints for the columns `cols` and the rows `rows`. */
  function TableLines(cols: seq<string>, rows: seq<seq<string>>): seq<string>
  {
    if rows == [] then []
    else
      var ws := Widths(cols, rows);
      [Border(ws, '┌', '┬', '┐'), RowText(ws, cols), Border(ws, '├', '┼', '┤')]
      + BodyLines(ws, rows)
      + [Border(ws, '└', '┴', '┘')]
  }

  /** `asTable`: nothing for no rows; otherwise the header, one line per row in a loop, the bottom border. */
  method RenderTable(cols: seq<string>, rows: seq<seq<string>>) returns (lines: seq<string>)
    ensures lines == TableLines(cols, rows)
  {
    if |rows| == 0 {
      return [];
    }
    var ws := Widths(cols, rows);
    var body: seq<string> := [];
    for j := 0 to |rows|
      invariant body == BodyLines(ws, rows[..j])
    {
      assert rows[..j + 1][..j] == rows[..j];
      body := body + [RowText(ws, rows[j])];
    }
    assert rows[..|rows|] == rows;
    lines := [Border(ws, '┌', '┬', '┐'), RowText(ws, cols), Border(ws, '├', '┼', '┤')] + body + [Border(ws, '└', '┴', '┘')];
  }

  lemma {:induction false} JoinSameLength(p: seq<string>, q: seq<string>, sep: string, sep': string)
    requires |p| == |q| && forall i :: 0 <= i < |p| ==> |p[i]| == |q[i]|
    requires |sep| == |sep'|
    ensures |Join(p, sep)| == |Join(q, sep')|
  {
    if |p| > 1 {
      JoinSameLength(p[1..], q[1..], sep, sep');
    }
  }

  /** A cell whose text fits its column is exactly the column width plus 2. */
  lemma {:induction false} CellWidth(s: string, w: nat)
    requires |s| <= w
    ensures |Cell(s, w)| == w + 2
  {
  }

  /** Every cell of a row whose texts fit the widths is as wide as its rule. */
  lemma {:induction false} CellsFit(ws: seq<nat>, row: seq<string>)
    requires forall i :: 0 <= i < |ws| ==> |CellText(row, i)| <= ws[i]
    ensures |RowText(ws, row)| == |Border(ws, '┌', '┬', '┐')|
  {
    var cells := Cells(ws, row);
    var rules := Rules(ws);
    forall i | 0 <= i < |ws|
      ensures |cells[i]| == |rules[i]|
    {
      CellWidth(CellText(row, i), ws[i]);
    }
    JoinSameLength(cells, rules, ['│'], ['┬']);
  }

  /** The header and every row fit the computed widths. */
  lemma {:induction false} RowFits(cols: seq<string>, rows: seq<seq<string>>, row: seq<string>)
    requires row == cols || row in rows
    ensures |RowText(Widths(cols, rows), row)| == |Border(Widths(cols, rows), '┌', '┬', '┐')|
  {
    var ws := Widths(cols, rows);
    CellsFit(ws, row);
  }

  lemma {:induction false} BordersAlike(ws: seq<nat>, a: char, b: char, c: char, x: char, y: char, z: char)
    ensures |Border(ws, a, b, c)| == |Border(ws, x, y, z)|
  {
    JoinSameLength(Rules(ws), Rules(ws), [b], [y]);
  }

  /**
   * A table of at least one row has four frame lines plus one line per row, and all its
   * lines have the same length: every cell is its column width plus 2.
   */
  lemma {:induction false} TableShape(cols: seq<string>, rows: seq<seq<string>>)
    requires rows != []
    ensures |TableLines(cols, rows)| == |rows| + 4
    ensures forall l :: l in TableLines(cols, rows) ==> |l| == |TableLines(cols, rows)[0]|
  {
    var ws := Widths(cols, rows);
    var top := Border(ws, '┌', '┬', '┐');
    var head := [top, RowText(ws, cols), Border(ws, '├', '┼', '┤')];
    var body := BodyLines(ws, rows);
    var foot := [Border(ws, '└', '┴', '┘')];
    FrameFits(cols, rows);
    BodyFits(cols, rows);
    SameLengths(head, body, foot, |top|);
    assert TableLines(cols, rows) == head + body + foot;
  }

  lemma {:induction false} FrameFits(cols: seq<string>, rows: seq<seq<string>>)
    ensures var ws := Widths(cols, rows);
      |RowText(ws, cols)| == |Border(ws, '┌', '┬', '┐')|
      && |Border(ws, '├', '┼', '┤')| == |Border(ws, '┌', '┬', '┐')|
      && |Border(ws, '└', '┴', '┘')| == |Border(ws, '┌', '┬', '┐')|
  {
    var ws := Widths(cols, rows);
    BordersAlike(ws, '┌', '┬', '┐', '├', '┼', '┤');
    BordersAlike(ws, '┌', '┬', '┐', '└', '┴', '┘');
    RowFits(cols, rows, cols);
  }

  lemma {:induction false} BodyFits(cols: seq<string>, rows: seq<seq<string>>)
    ensures var ws := Widths(cols, rows);
      forall j :: 0 <= j < |rows| ==> |BodyLines(ws, rows)[j]| == |Border(ws, '┌', '┬', '┐')|
  {
    var ws := Widths(cols, rows);
    forall j | 0 <= j < |rows|
      ensures |BodyLines(ws, rows)[j]| == |Border(ws, '┌', '┬', '┐')|
    {
      RowFits(cols, rows, rows[j]);
    }
  }

  lemma {:induction false} SameLengths(a: seq<string>, b: seq<string>, c: seq<string>, n: nat)
    requires forall i :: 0 <= i < |a| ==> |a[i]| == n
    requires forall i :: 0 <= i < |b| ==> |b[i]| == n
    requires forall i :: 0 <= i < |c| ==> |c[i]| == n
    ensures forall l :: l in a + b + c ==> |l| == n
  {
  }

  /** No rows, no output. */
  lemma {:induction false} EmptyTable(cols: seq<string>)
    ensures TableLines(cols, []) == []
  {
  }

  // ---------- the router ----------

  /** `npm view <pkg> <field>`, trimmed; "" when the command fails. */
  type Registry = (string, string) -> string

  /** The fields `compare` shows for one package. */
  datatype Summary = Summary(name: string, version: string, license: string, depsCount: nat, sizeKB: string)

  /** What one run of the inspector does; only a usage error sets a non-zero exit code. */
  datatype Outcome =
    | Help
    | UsageError(message: string)
    | InfoShown(data: seq<(string, string)>, asJson: bool)
    | VersionsShown(pkg: string, versions: seq<string>, asJson: bool)
    | DepsShown(pkg: string, deps: seq<(string, string)>, asJson: bool)
    | CompareShown(a: Summary, b: Summary, asJson: bool)

  /** `process.exitCode`: set to 1 by `error`, left at 0 otherwise. */
  function ExitCode(o: Outcome): (code: int)
    ensures code == 1 <==> o.UsageError?
    ensures code == 0 || code == 1
  {
    if o.UsageError? then 1 else 0
  }

  /** `(args[0] || 'help').toLowerCase()`. */
  function CommandName(args: seq<string>): string
  {
    ToLower(if args != [] && args[0] != "" then args[0] else "help")
  }

  /** `args.slice(1)`. */
  function FlagArgs(args: seq<string>): seq<string>
  {
    if args == [] then [] else args[1..]
  }

  /** The `i`-th plain argument, "" when there is none (both are falsy). */
  function Nth(flags: Flags, i: nat): string
  {
    if i < |flags.positional| then flags.positional[i] else ""
  }

  /** `parseJsonish(raw) || []`. */
  function VersionList(raw: string): seq<string>
  {
    match ParseJsonish(raw)
    case None => []
    case Some(xs) => xs
  }

  /** `Object.entries(parseObjish(raw) || {})`. */
  function DependencyEntries(raw: string): seq<(string, string)>
  {
    match ParseObjish(raw)
    case None => []
    case Some(es) => es
  }

  function InfoData(pkg: string, view: Registry, kb: string -> string): seq<(string, string)>
  {
    [("name", pkg), ("version", view(pkg, "version")), ("license", view(pkg, "license")),
     ("description", view(pkg, "description")), ("repository", view(pkg, "repository.url")),
     ("homepage", view(pkg, "homepage")), ("unpackedSizeKB", kb(view(pkg, "dist.unpackedSize")))]
  }

  function SummaryOf(pkg: string, view: Registry, kb: string -> string): Summary
  {
    Summary(pkg, view(pkg, "version"), view(pkg, "license"),
      |DependencyEntries(view(pkg, "dependencies"))|, kb(view(pkg, "dist.unpackedSize")))
  }

  /** The router: each command checks its package arguments before any lookup. */
  function Dispatch(cmd: string, flags: Flags, view: Registry, kb: string -> string): Outcome
  {
    var a, b := Nth(flags, 0), Nth(flags, 1);
    if cmd == "info" then
      if a == "" then UsageError("Usage: info <package>")
      else InfoShown(InfoData(a, view, kb), JsonMode(flags))
    else if cmd == "versions" then
      if a == "" then UsageError("Usage: versions <package> [--limit=N]")
      else VersionsShown(a, RecentVersions(VersionList(view(a, "versions")), FlagNumber(flags, "limit", 5)), JsonMode(flags))
    else if cmd == "deps" then
      if a == "" then UsageError("Usage: deps <package> [--max=N]")
      else DepsShown(a, FirstDeps(DependencyEntries(view(a, "dependencies")), FlagNumber(flags, "max", 10)), JsonMode(flags))
    else if cmd == "compare" then
      if a == "" || b == "" then UsageError("Usage: compare <pkgA> <pkgB>")
      else CompareShown(SummaryOf(a, view, kb), SummaryOf(b, view, kb), JsonMode(flags))
    else Help
  }

  /** A run of the script: the command, the flags after it, then the router. */
  method Run(args: seq<string>, view: Registry, kb: string -> string) returns (outcome: Outcome)
    ensures outcome == Dispatch(CommandName(args), Flags(Positionals(FlagArgs(args)), NamedFlags(FlagArgs(args))), view, kb)
  {
    var flags := ParseFlags(FlagArgs(args));
    outcome := Dispatch(CommandName(args), flags, view, kb);
  }

  /** `Object.entries(data).map(([field, value]) => ({ field, value }))`, and the same for the dependency list. */
  function PairRows(ps: seq<(string, string)>): seq<seq<string>>
  {
    seq(|ps|, i requires 0 <= i < |ps| => [ps[i].0, ps[i].1])
  }

  /** `recent.map(v => ({ version: v }))`. */
  function VersionRows(vs: seq<string>): seq<seq<string>>
  {
    seq(|vs|, i requires 0 <= i < |vs| => [vs[i]])
  }

  function Values(entries: seq<(string, string)>): seq<string>
  {
    seq(|entries|, i requires 0 <= i < |entries| => entries[i].1)
  }

  /**
   * One row of the comparison, `{ field: heading, [a]: x, [b]: y }`: the keys are set in
   * turn, so a package named like another key shares that key's column and the later value wins.
   */
  function CompareRow(a: string, b: string, heading: string, x: string, y: string): seq<(string, string)>
  {
    Collect([("field", heading), (a, x), (b, y)])
  }

  function CompareRows(x: Summary, y: Summary): seq<seq<(string, string)>>
  {
    [CompareRow(x.name, y.name, "version", x.version, y.version),
     CompareRow(x.name, y.name, "license", x.license, y.license),
     CompareRow(x.name, y.name, "depsCount", IntToDecimal(x.depsCount), IntToDecimal(y.depsCount)),
     CompareRow(x.name, y.name, "size(KB)", x.sizeKB, y.sizeKB)]
  }

  /** Two different package names, neither called `field`, give the columns `field`, `a`, `b`. */
  lemma {:induction false} CompareColumns(a: string, b: string, heading: string, x: string, y: string)
    requires a != b && a != "field" && b != "field"
    ensures CompareRow(a, b, heading, x, y) == [("field", heading), (a, x), (b, y)]
  {
    CollectThree(("field", heading), (a, x), (b, y));
  }

  /** Comparing a package with itself gives one column for it, holding the second value. */
  lemma {:induction false} CompareSame(a: string, heading: string, x: string, y: string)
    requires a != "field"
    ensures CompareRow(a, a, heading, x, y) == [("field", heading), (a, y)]
  {
    CollectRepeated(("field", heading), (a, x), (a, y));
  }

  lemma {:induction false} CollectThree(m0: (string, string), m1: (string, string), m2: (string, string))
    requires m0.0 != m1.0 && m0.0 != m2.0 && m1.0 != m2.0
    ensures Collect([m0, m1, m2]) == [m0, m1, m2]
  {
    CollectDistinct([m0, m1, m2]);
  }

  lemma {:induction false} CollectRepeated(m0: (string, string), m1: (string, string), m2: (string, string))
    requires m0.0 != m1.0 && m1.0 == m2.0
    ensures Collect([m0, m1, m2]) == [m0, m2]
  {
    var ms := [m0, m1, m2];
    CollectDistinct([m0, m1]);
    assert ms[..2] == [m0, m1];
    PutOver(m0, m1, m2);
  }

  /** Setting the second of two keys again replaces its value in place. */
  lemma {:induction false} PutOver(m0: (string, string), m1: (string, string), m2: (string, string))
    requires m0.0 != m1.0 && m1.0 == m2.0
    ensures Put([m0, m1], m2.0, m2.1) == [m0, m2]
  {
    var e := [m0, m1];
    assert e[0] == m0 && e[1..] == [m1];
    assert Put([m1], m2.0, m2.1) == [m2] by {
      assert [m1][1..] == [];
    }
  }

  /** The lines a run prints on standard output, apart from the help text and JSON. */
  method Render(outcome: Outcome) returns (lines: seq<string>)
    ensures outcome.InfoShown? ==>
      lines == if outcome.asJson then [] else TableLines(["field", "value"], PairRows(outcome.data))
    ensures outcome.VersionsShown? ==>
      lines == if outcome.asJson then [] else TableLines(["version"], VersionRows(outcome.versions))
    ensures outcome.DepsShown? ==>
      lines == if outcome.asJson then []
               else if outcome.deps == [] then ["(no dependencies)"]
               else TableLines(["name", "range"], PairRows(outcome.deps))
    ensures outcome.CompareShown? ==>
      var rows := CompareRows(outcome.a, outcome.b);
      lines == if outcome.asJson then []
               else TableLines(Keys(rows[0]), seq(4, i requires 0 <= i < 4 => Values(rows[i])))
    ensures outcome.Help? || outcome.UsageError? ==> lines == []
  {
    lines := [];
    match outcome
    case InfoShown(data, asJson) =>
      if !asJson {
        lines := RenderTable(["field", "value"], PairRows(data));
      }
    case VersionsShown(_, versions, asJson) =>
      if !asJson {
        lines := RenderTable(["version"], VersionRows(versions));
      }
    case DepsShown(_, deps, asJson) =>
      if !asJson {
        if deps == [] {
          lines := ["(no dependencies)"];
        } else {
          lines := RenderTable(["name", "range"], PairRows(deps));
        }
      }
    case CompareShown(x, y, asJson) =>
      if !asJson {
        var rows := CompareRows(x, y);
        lines := RenderTable(Keys(rows[0]), seq(4, i requires 0 <= i < 4 => Values(rows[i])));
      }
    case _ =>
  }

  /**
   * A text line splits on `│` back into its cells, and each cell starts with a space and
   * then the cell's text, when no text holds `│`.
   */
  lemma {:induction false} RowCells(ws: seq<nat>, row: seq<string>)
    requires |ws| >= 1
    requires forall i :: 0 <= i < |ws| ==> '│' !in CellText(row, i)
    ensures Split(RowText(ws, row), '│') == [[]] + Cells(ws, row) + [[]]
    ensures forall i :: 0 <= i < |ws| && |CellText(row, i)| <= ws[i] ==>
      Cells(ws, row)[i][1..|CellText(row, i)| + 1] == CellText(row, i)
  {
    var cs := Cells(ws, row);
    JoinFramed(cs, '│');
    CellsNoBar(ws, row);
    SplitJoin([[]] + cs + [[]], '│');
    forall i | 0 <= i < |ws| && |CellText(row, i)| <= ws[i]
      ensures cs[i][1..|CellText(row, i)| + 1] == CellText(row, i)
    {
      CellStart(CellText(row, i), ws[i]);
    }
  }

  /** Joining pieces between two empty ones puts the separator at both ends. */
  lemma {:induction false} JoinFramed(cs: seq<string>, sep: char)
    requires |cs| >= 1
    ensures Join([[]] + cs + [[]], [sep]) == [sep] + Join(cs, [sep]) + [sep]
  {
    var e: string := [];
    var j := Join(cs, [sep]);
    var tail := cs + [e];
    assert Join([e], [sep]) == e;
    JoinConcat(cs, [e], [sep]);
    assert Join(tail, [sep]) == j + [sep] by {
      assert j + [sep] + e == j + [sep];
    }
    JoinConcat([e], tail, [sep]);
    assert [e] + cs + [e] == [e] + tail;
    assert e + [sep] + (j + [sep]) == [sep] + j + [sep];
  }

  lemma {:induction false} CellsNoBar(ws: seq<nat>, row: seq<string>)
    requires forall i :: 0 <= i < |ws| ==> '│' !in CellText(row, i)
    ensures forall p :: p in [[]] + Cells(ws, row) + [[]] ==> '│' !in p
  {
    var cs := Cells(ws, row);
    forall i | 0 <= i < |cs|
      ensures '│' !in cs[i]
    {
      PadNoBar(CellText(row, i), ws[i]);
    }
  }

  lemma {:induction false} CellStart(t: string, w: nat)
    requires |t| <= w
    ensures Cell(t, w)[1..|t| + 1] == t
  {
    assert Cell(t, w)[1..|t| + 1] == PadEnd(t, w)[..|t|];
  }

  lemma {:induction false} PadNoBar(s: string, w: nat)
    requires '│' !in s
    ensures '│' !in Cell(s, w)
  {
    if |s| < w {
      assert Cell(s, w) == [' '] + s + Repeat(' ', w - |s|) + [' '];
    }
  }

  /** A missing package argument is a usage error with exit code 1, for each command that needs one. */
  lemma {:induction false} UsageErrors(cmd: string, flags: Flags, view: Registry, kb: string -> string)
    ensures ExitCode(Dispatch(cmd, flags, view, kb)) == 1 <==>
      ((cmd == "info" || cmd == "versions" || cmd == "deps") && Nth(flags, 0) == "")
      || (cmd == "compare" && (Nth(flags, 0) == "" || Nth(flags, 1) == ""))
  {
  }

  /** A usage error is decided before any lookup: it does not depend on the registry. */
  lemma {:induction false} UsageWithoutLookup(cmd: string, flags: Flags, view: Registry, view': Registry, kb: string -> string, kb': string -> string)
    requires Dispatch(cmd, flags, view, kb).UsageError?
    ensures Dispatch(cmd, flags, view', kb') == Dispatch(cmd, flags, view, kb)
  {
  }

  /** Any other command, and no command at all, shows help. */
  lemma {:induction false} UnknownShowsHelp(args: seq<string>, flags: Flags, view: Registry, kb: string -> string)
    requires CommandName(args) !in ["info", "versions", "deps", "compare"]
    ensures Dispatch(CommandName(args), flags, view, kb) == Help
    ensures args == [] ==> CommandName(args) == "help"
  {
  }

  /** Commands are case-insensitive (for ASCII letters). */
  lemma {:induction false} CommandCase(c: string, rest: seq<string>)
    ensures CommandName([ToLower(c)] + rest) == CommandName([c] + rest)
  {
    LowerTwice(c);
    assert ToLower(c) == "" <==> c == "";
  }

  lemma {:induction false} LowerTwice(s: string)
    ensures ToLower(ToLower(s)) == ToLower(s)
  {
    assert forall i :: 0 <= i < |s| ==> LowerChar(LowerChar(s[i])) == LowerChar(s[i]);
  }

  /** `versions <pkg> --limit=1` on a registry that lists `1.0.0` and `1.1.0` shows `1.1.0`. */
  lemma {:induction false} VersionsExample(view: Registry, kb: string -> string, flags: Flags, raw: string)
    requires raw == "[ '1.0.0', '1.1.0' ]" && Nth(flags, 0) != "" && view(Nth(flags, 0), "versions") == raw
    requires flags.named == map["limit" := "1"]
    ensures Dispatch("versions", flags, view, kb) == VersionsShown(Nth(flags, 0), ["1.1.0"], false)
  {
    var pkg := Nth(flags, 0);
    assert Dispatch("versions", flags, view, kb)
      == VersionsShown(pkg, RecentVersions(VersionList(raw), FlagNumber(flags, "limit", 5)), JsonMode(flags));
    LastListed(raw);
    LimitOne(flags, "limit");
    assert "json" !in flags.named;
  }

  lemma {:induction false} LastListed(raw: string)
    requires raw == "[ '1.0.0', '1.1.0' ]"
    ensures RecentVersions(VersionList(raw), Numeric(Fin(1))) == ["1.1.0"]
  {
    JsonishExample();
    var all := VersionList(raw);
    RecentCount(all, 1);
    assert all[|all| - 1..] == ["1.1.0"];
  }

  /**
   * `versions <pkg>` shows the last versions the registry lists: five without `--limit`
   * (or with an empty one), the last `n` for `--limit=<n>`, all of them for `--limit=0`
   * or a limit that is not a number.
   */
  lemma {:induction false} VersionsOutcome(cmd: string, flags: Flags, view: Registry, kb: string -> string)
    requires cmd == "versions" && Nth(flags, 0) != ""
    ensures var pkg := Nth(flags, 0);
      var all := VersionList(view(pkg, "versions"));
      var o := Dispatch(cmd, flags, view, kb);
      && o.VersionsShown? && o.pkg == pkg && o.asJson == JsonMode(flags)
      && (("limit" !in flags.named || flags.named["limit"] == "") ==> o.versions == all[|all| - Min(5, |all|)..])
      && ("limit" in flags.named && DigitsText(flags.named["limit"]) ==>
            var n := DecimalValue(flags.named["limit"]);
            o.versions == if n == 0 then all else all[|all| - Min(n, |all|)..])
      && ("limit" in flags.named && flags.named["limit"] != "" && NumberOf(flags.named["limit"]).NaN? ==> o.versions == all)
  {
    var pkg := Nth(flags, 0);
    var all := VersionList(view(pkg, "versions"));
    assert Dispatch(cmd, flags, view, kb) == VersionsShown(pkg, RecentVersions(all, FlagNumber(flags, "limit", 5)), JsonMode(flags));
    if "limit" !in flags.named || flags.named["limit"] == "" {
      RecentDefault(all, flags, "limit");
    } else if DigitsText(flags.named["limit"]) {
      RecentFromDigits(all, flags, "limit");
    } else if NumberOf(flags.named["limit"]).NaN? {
      RecentWhole(all, NaN);
    }
  }

  lemma {:induction false} LimitOne(flags: Flags, key: string)
    requires key in flags.named && flags.named[key] == "1"
    ensures FlagNumber(flags, key, 5) == Numeric(Fin(1))
  {
    assert DigitsText("1");
    FlagDigits(flags, key, 5);
    assert DecimalValue("1") == DecimalValue("1"[..0]) * 10 + 1;
  }

  /**
   * A dependency listing whose first range starts with a word and a colon (`npm:…`,
   * `github:…`, `file:…`, `workspace:…`) is not parsed: `deps` shows no dependencies and
   * `compare` counts none, although npm printed at least one.
   */
  lemma {:induction false} ColonRangeNoDeps(flags: Flags, view: Registry, kb: string -> string, k: string, w: string, r: string)
    requires IsIdentifier(k) && IsBareKey(w)
    requires Nth(flags, 0) != "" && view(Nth(flags, 0), "dependencies") == "{ " + k + ": '" + w + ":" + r
    ensures DependencyEntries(view(Nth(flags, 0), "dependencies")) == []
    ensures SummaryOf(Nth(flags, 0), view, kb).depsCount == 0
    ensures Dispatch("deps", flags, view, kb) == DepsShown(Nth(flags, 0), [], JsonMode(flags))
  {
    var pkg := Nth(flags, 0);
    ColonRangeNotObject(k, w, r);
    assert DependencyEntries(view(pkg, "dependencies")) == [];
    assert FirstDeps([], FlagNumber(flags, "max", 10)) == [];
  }
}
