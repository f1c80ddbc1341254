/**
 * The npm package information checker: which fields of a package it shows, the
 * recent versions with the latest one marked, and the dependency count with the
 * names of small dependency lists. Each `npm view` call is a parameter that either
 * prints some text or fails.
 */
module Checker {
  import opened Wrappers
  import opened Text
  import opened JsArray
  import opened QuasiJson

  /** What `getNpmView` returns when the `npm view` command fails. */
  const Sentinel := "Error: Package not found or network issue"

  /** One `npm view <package> <field>` call: the text it printed, or a failure. */
  datatype Lookup = Output(stdout: string) | Failure

  /** `npm view` for a package name and a field. */
  type Npm = (string, string) -> Lookup

  /** `getNpmView`: the trimmed output, or the sentinel when the command fails; it never throws. */
  function GetNpmView(npm: Npm, packageName: string, field: string): (r: string)
    ensures npm(packageName, field).Failure? ==> r == Sentinel
    ensures npm(packageName, field).Output? ==> r == Trim(npm(packageName, field).stdout)
    ensures npm(packageName, field).Output? ==>
      r == [] || (!IsJsSpace(r[0]) && !IsJsSpace(r[|r| - 1]))
  {
    match npm(packageName, field)
    case Failure => Sentinel
    case Output(out) => Trim(out)
  }

  /** Output without white space at either end is returned as it was printed. */
  lemma {:induction false} TrimmedOutputKept(npm: Npm, packageName: string, field: string)
    requires npm(packageName, field).Output?
    requires var out := npm(packageName, field).stdout;
      out != [] && !IsJsSpace(out[0]) && !IsJsSpace(out[|out| - 1])
    ensures GetNpmView(npm, packageName, field) == npm(packageName, field).stdout
  {
    var out := npm(packageName, field).stdout;
    assert LeadingSpace(out) == 0 && out[0..] == out;
    assert TrailingSpace(out) == 0 && out[..|out|] == out;
  }

  /** Output made only of white space reads as the empty string, so its field is not shown. */
  lemma {:induction false} BlankOutputEmpty(npm: Npm, packageName: string, field: string)
    requires npm(packageName, field).Output? && AllSpace(npm(packageName, field).stdout)
    ensures GetNpmView(npm, packageName, field) == [] && !Shown(GetNpmView(npm, packageName, field))
  {
    var out := npm(packageName, field).stdout;
    assert LeadingSpace(out) == |out|;
  }

  // ---------- package information ----------

  /** The labels `displayPackageInfo` shows, in order, with the field each one looks up. */
  const InfoFields: seq<(string, string)> := [
    ("Latest Version", "version"), ("Description", "description"), ("License", "license"),
    ("Author", "author.name"), ("Homepage", "homepage"), ("Repository", "repository.url"),
    ("Main File", "main"), ("Keywords", "keywords")]

  /** The looked-up value of every label, in order. */
  function InfoValues(npm: Npm, packageName: string): (info: seq<(string, string)>)
    ensures |info| == |InfoFields|
    ensures forall i :: 0 <= i < |InfoFields| ==>
      info[i] == (InfoFields[i].0, GetNpmView(npm, packageName, InfoFields[i].1))
  {
    seq(|InfoFields|, i requires 0 <= i < |InfoFields| =>
      (InfoFields[i].0, GetNpmView(npm, packageName, InfoFields[i].1)))
  }

  /** A value is shown when it is not empty and is not the sentinel. */
  predicate Shown(value: string) { value != "" && value != Sentinel }

  /** The labelled values that are shown, in their order. */
  function ShownRows(info: seq<(string, string)>): seq<(string, string)>
  {
    if info == [] then []
    else
      var last := info[|info| - 1];
      ShownRows(info[..|info| - 1]) + (if Shown(last.1) then [last] else [])
  }

  /** `displayPackageInfo`: the `label: value` rows it prints, one loop step per label. */
  method DisplayPackageInfo(npm: Npm, packageName: string) returns (rows: seq<(string, string)>)
    ensures rows == ShownRows(InfoValues(npm, packageName))
  {
    var info := InfoValues(npm, packageName);
    rows := [];
    for i := 0 to |info|
      invariant rows == ShownRows(info[..i])
    {
      assert info[..i + 1][..i] == info[..i];
      var (name, value) := info[i];
      if value != "" && value != Sentinel {
        rows := rows + [(name, value)];
      }
    }
    assert info[..|info|] == info;
  }

  lemma {:induction false} ShownRowsAppend(a: seq<(string, string)>, b: seq<(string, string)>)
    ensures ShownRows(a + b) == ShownRows(a) + ShownRows(b)
    decreases |b|
  {
    if b == [] {
      assert a + b == a;
    } else {
      var init := b[..|b| - 1];
      assert (a + b)[..|a + b| - 1] == a + init;
      ShownRowsAppend(a, init);
    }
  }

  lemma {:induction false} ShownRowsMembers(info: seq<(string, string)>)
    ensures forall r :: r in ShownRows(info) <==> r in info && Shown(r.1)
    decreases |info|
  {
    if info != [] {
      var init := info[..|info| - 1];
      ShownRowsMembers(init);
      assert info == init + [info[|info| - 1]];
    }
  }

  /**
   * A label's row is there exactly when its value is neither empty nor the sentinel;
   * ShownRows keeps the fixed label order.
   */
  lemma {:induction false} InfoRowsSelected(npm: Npm, packageName: string)
    ensures var rows := ShownRows(InfoValues(npm, packageName));
      forall i :: 0 <= i < |InfoFields| ==>
        ((InfoFields[i].0, GetNpmView(npm, packageName, InfoFields[i].1)) in rows <==>
         Shown(GetNpmView(npm, packageName, InfoFields[i].1)))
  {
    var info := InfoValues(npm, packageName);
    ShownRowsMembers(info);
    forall i | 0 <= i < |InfoFields|
      ensures (InfoFields[i].0, GetNpmView(npm, packageName, InfoFields[i].1)) in info
    {
      assert info[i] == (InfoFields[i].0, GetNpmView(npm, packageName, InfoFields[i].1));
    }
  }

  /** A package whose lookups all fail shows no information rows. */
  lemma {:induction false} UnknownPackageShowsNothing(npm: Npm, packageName: string)
    requires forall field :: npm(packageName, field).Failure?
    ensures ShownRows(InfoValues(npm, packageName)) == []
  {
    var info := InfoValues(npm, packageName);
    forall i | 0 <= i < |info|
      ensures !Shown(info[i].1)
    {
      assert info[i].1 == GetNpmView(npm, packageName, InfoFields[i].1);
    }
    NoneShown(info);
  }

  lemma {:induction false} NoneShown(info: seq<(string, string)>)
    requires forall i :: 0 <= i < |info| ==> !Shown(info[i].1)
    ensures ShownRows(info) == []
    decreases |info|
  {
    if info != [] {
      NoneShown(info[..|info| - 1]);
    }
  }

  // ---------- version history ----------

  /** The version history block: the listed lines, or the "could not retrieve" notice. */
  datatype History = CouldNotRetrieve | Listed(lines: seq<string>)

  /** `  → v` for the last version shown, `    v` with a blank marker otherwise. */
  function VersionLine(version: string, last: bool): (line: string)
    ensures |line| == |version| + 4 && line[4..] == version
    ensures line[2] == (if last then '→' else ' ')
  {
    "  " + [if last then '→' else ' '] + " " + version
  }

  /** The lines printed for the recent versions, the last one marked. */
  function HistoryLines(recent: seq<string>): (lines: seq<string>)
    ensures |lines| == |recent|
    ensures forall i :: 0 <= i < |recent| ==> |lines[i]| == |recent[i]| + 4 && lines[i][4..] == recent[i]
    ensures forall i :: 0 <= i < |recent| ==>
      lines[i][..4] == if i == |recent| - 1 then "  → " else "    "
  {
    seq(|recent|, i requires 0 <= i < |recent| => VersionLine(recent[i], i == |recent| - 1))
  }

  /** `versionArray.slice(-limit)` with a numeric `limit`. */
  function RecentOf(versions: seq<string>, limit: int): (r: seq<string>)
    ensures |r| <= |versions| && r == versions[|versions| - |r|..]
  {
    SliceFrom(versions, Negate(Fin(limit)))
  }

  /**
   * `displayVersionHistory`: quotes swapped and the text parsed as a list; the last
   * `limit` versions are printed one by one, or the notice when the text is not a list.
   */
  method DisplayVersionHistory(npm: Npm, packageName: string, limit: int) returns (h: History)
    ensures ParseJsonish(GetNpmView(npm, packageName, "versions")).None? ==> h == CouldNotRetrieve
    ensures ParseJsonish(GetNpmView(npm, packageName, "versions")).Some? ==>
      h == Listed(HistoryLines(RecentOf(ParseJsonish(GetNpmView(npm, packageName, "versions")).value, limit)))
  {
    var versions := GetNpmView(npm, packageName, "versions");
    var parsed := ParseJsonish(versions);
    if parsed.None? {
      h := CouldNotRetrieve;
    } else {
      var lines := PrintVersions(RecentOf(parsed.value, limit));
      h := Listed(lines);
    }
  }

  /** The `forEach` over the recent versions: one line each, the arrow on the last. */
  method PrintVersions(recent: seq<string>) returns (lines: seq<string>)
    ensures lines == HistoryLines(recent)
  {
    lines := [];
    for index := 0 to |recent|
      invariant |lines| == index
      invariant forall k :: 0 <= k < index ==> lines[k] == VersionLine(recent[k], k == |recent| - 1)
    {
      var arrow := index == |recent| - 1;
      lines := lines + [VersionLine(recent[index], arrow)];
    }
  }

  /**
   * Exactly one version carries the arrow, the last one printed, and the lines show the
   * last `limit` versions in their order.
   */
  lemma {:induction false} ArrowOnLast(versions: seq<string>, limit: int)
    requires limit >= 1
    ensures var lines := HistoryLines(RecentOf(versions, limit));
      |lines| == Min(limit, |versions|)
      && (forall i :: 0 <= i < |lines| ==> (lines[i][2] == '→' <==> i == |lines| - 1))
      && (forall i :: 0 <= i < |lines| ==> lines[i][4..] == versions[|versions| - |lines| + i])
  {
    LastN(versions, limit);
  }

  /** A failed lookup is reported as "could not retrieve", since the sentinel is not a list. */
  lemma {:induction false} FailedHistory(npm: Npm, packageName: string)
    requires npm(packageName, "versions").Failure?
    ensures ParseJsonish(GetNpmView(npm, packageName, "versions")) == None
  {
    SentinelStart(GetNpmView(npm, packageName, "versions"));
    WordNotList(GetNpmView(npm, packageName, "versions"));
  }

  lemma {:induction false} SentinelStart(s: string)
    requires s == Sentinel
    ensures s != [] && IsWordChar(s[0])
  {
  }

  /** Text that starts with a word character is not a list. */
  lemma {:induction false} WordNotList(s: string)
    requires s != [] && IsWordChar(s[0])
    ensures ParseJsonish(s) == None
  {
    QuoteSwapAt(s);
    NotArray(QuoteSwap(s));
  }

  /** The versions npm prints come back in full order when there are at most `limit` of them. */
  lemma {:induction false} HistoryOfListing(xs: seq<string>, limit: int)
    requires forall x :: x in xs ==> IsPlainItem(x)
    requires limit >= |xs| && limit >= 1
    ensures ParseJsonish(ArrayText(xs, '\'')) == Some(xs)
    ensures RecentOf(xs, limit) == xs
  {
    JsonishRoundTrip(xs);
    LastN(xs, limit);
    assert xs[0..] == xs;
  }

  // ---------- dependencies ----------

  /** The dependencies block. */
  datatype Dependencies =
    | NoDependencies
    | NotAvailable
    | Counted(total: nat, listed: seq<string>)

  /** The texts treated as "no dependencies": empty, `undefined` or the sentinel. */
  predicate Absent(deps: string) { deps == "" || deps == "undefined" || deps == Sentinel }

  /** The text JSON.parse receives: quotes swapped first, keys quoted second. */
  function DepsText(deps: string): string
  {
    QuoteKeys(QuoteSwap(deps))
  }

  /** `displayDependencies`: the count, and the names when there are between 1 and 10. */
  function DisplayDependencies(npm: Npm, packageName: string): (d: Dependencies)
    ensures d == NoDependencies <==> Absent(GetNpmView(npm, packageName, "dependencies"))
    ensures d == NotAvailable <==>
      !Absent(GetNpmView(npm, packageName, "dependencies"))
      && ParseFlatObject(DepsText(GetNpmView(npm, packageName, "dependencies"))).None?
    ensures d.Counted? ==>
      var o := ParseFlatObject(DepsText(GetNpmView(npm, packageName, "dependencies")));
      o.Some? && d.total == |Keys(o.value)| && d.listed == if 1 <= d.total <= 10 then Keys(o.value) else []
  {
    var deps := GetNpmView(npm, packageName, "dependencies");
    if Absent(deps) then NoDependencies
    else
      match ParseFlatObject(DepsText(deps))
      case None => NotAvailable
      case Some(depsObj) =>
        var names := Keys(depsObj);
        Counted(|names|, if 0 < |names| <= 10 then names else [])
  }

  /** The two scripts normalise a dependency listing the same way, whichever rewrite goes first. */
  lemma {:induction false} SameAsInspector(deps: string)
    ensures ParseFlatObject(DepsText(deps)) == ParseObjish(deps)
  {
    RewritesCommute(deps);
  }

  /** A failed lookup counts as "no dependencies", not as an error. */
  lemma {:induction false} FailedDependencies(npm: Npm, packageName: string)
    requires npm(packageName, "dependencies").Failure?
    ensures DisplayDependencies(npm, packageName) == NoDependencies
  {
  }

  /**
   * A dependency listing as npm prints it, with distinct names and plain ranges,
   * is counted in full and its names are listed in order when there are at most ten.
   */
  lemma {:induction false} CountsListing(npm: Npm, packageName: string, es: seq<(string, string)>)
    requires PlainMembers(es) && DistinctKeys(es) && es != []
    requires npm(packageName, "dependencies") == Output(ObjectText(es, false))
    ensures DisplayDependencies(npm, packageName)
      == Counted(|es|, if |es| <= 10 then Keys(es) else [])
  {
    var text := ObjectText(es, false);
    ListingTrimmed(es);
    assert GetNpmView(npm, packageName, "dependencies") == text;
    ListingNotAbsent(es);
    SameAsInspector(text);
    ObjishRoundTrip(es);
    CollectDistinct(es);
  }

  /**
   * A listing whose first range starts with a word and a colon (`npm:…`, `github:…`,
   * `file:…`, `workspace:…`) is reported as "not available", although npm printed it.
   */
  lemma {:induction false} ColonRangeNotAvailable(npm: Npm, packageName: string, k: string, w: string, r: string)
    requires IsIdentifier(k) && IsBareKey(w)
    requires npm(packageName, "dependencies") == Output("{ " + k + ": '" + w + ":" + r + "' }")
    ensures DisplayDependencies(npm, packageName) == NotAvailable
  {
    var t := "{ " + k + ": '" + w + ":" + r + "' }";
    assert t == "{ " + k + ": '" + w + ":" + (r + "' }");
    BracedKept(t);
    assert GetNpmView(npm, packageName, "dependencies") == t;
    ColonRangeNotObject(k, w, r + "' }");
    SameAsInspector(t);
  }

  /** Text between `{` and `}` is left alone by `trim` and is not taken for "no dependencies". */
  lemma {:induction false} BracedKept(t: string)
    requires t != [] && t[0] == '{' && t[|t| - 1] == '}'
    ensures Trim(t) == t && !Absent(t)
  {
    assert LeadingSpace(t) == 0 && t[0..] == t;
    assert TrailingSpace(t) == 0 && t[..|t|] == t;
    assert Sentinel[0] == 'E' && "undefined"[0] == 'u';
  }

  lemma {:induction false} ListingTrimmed(es: seq<(string, string)>)
    requires es != []
    ensures Trim(ObjectText(es, false)) == ObjectText(es, false)
  {
    var t := ObjectText(es, false);
    assert t[0] == '{' && t[|t| - 1] == '}';
    assert LeadingSpace(t) == 0 && t[0..] == t;
    assert TrailingSpace(t) == 0 && t[..|t|] == t;
  }

  lemma {:induction false} ListingNotAbsent(es: seq<(string, string)>)
    requires es != []
    ensures !Absent(ObjectText(es, false))
  {
    var t := ObjectText(es, false);
    assert t[0] == '{';
    assert Sentinel[0] == 'E' && "undefined"[0] == 'u';
  }
}
