/**
 * The package.json rules of the inspector script: the simplified npm name check,
 * the strict `X.Y.Z` version check, the patch/minor/major bump that rewrites the
 * record in place, the ordered validation pass, the entry-resolution summary,
 * fixed-width padding and the box layout, and the choice of command from the
 * arguments. `fail` is an error result rather than the end of the process.
 */
module Manifest {
  import opened Wrappers
  import opened Text

  // ---------- the record ----------

  /** A JSON value as package.json can hold it (numbers are integers here). */
  datatype Json =
    | JNull
    | JBool(b: bool)
    | JNum(n: int)
    | JStr(s: string)
    | JArr(items: seq<Json>)
    | JObj(fields: map<string, Json>)

  /** The fields the script reads; `None` is a field that is absent (`undefined`). */
  datatype Package = Package(
    name: Option<Json>,
    version: Option<Json>,
    private: Option<Json>,
    engines: Option<Json>,
    moduleType: Option<Json>,
    exports: Option<Json>,
    main: Option<Json>,
    sideEffects: Option<Json>)

  /** JavaScript truthiness of a field. */
  predicate Truthy(v: Option<Json>)
  {
    match v
    case None => false
    case Some(j) =>
      match j
      case JNull => false
      case JBool(b) => b
      case JNum(n) => n != 0
      case JStr(s) => s != ""
      case _ => true
  }

  /** `typeof v === 'object'`: null, an array or an object. */
  predicate IsObjectType(v: Option<Json>)
  {
    v.Some? && (v.value.JNull? || v.value.JArr? || v.value.JObj?)
  }

  /** `v[key]`: only an object has the keys the script asks for (`node`, `.`, `import`, `require`). */
  function Property(v: Option<Json>, key: string): (r: Option<Json>)
    ensures r.Some? ==> v.Some? && v.value.JObj? && key in v.value.fields
    ensures v.Some? && v.value.JObj? && key in v.value.fields ==> r == Some(v.value.fields[key])
  {
    if v.Some? && v.value.JObj? && key in v.value.fields then Some(v.value.fields[key]) else None
  }

  /** `String(v)`, also what a template literal writes for `${v}`. */
  function JsString(v: Option<Json>): string
  {
    match v
    case None => "undefined"
    case Some(j) => JsonString(j)
  }

  function JsonString(j: Json): string
    decreases j, 1
  {
    match j
    case JNull => "null"
    case JBool(b) => if b then "true" else "false"
    case JNum(n) => IntToDecimal(n)
    case JStr(s) => s
    case JArr(items) => ElementsString(items)
    case JObj(_) => "[object Object]"
  }

  /** `items.join(',')`, where a null element is written as nothing. */
  function ElementsString(items: seq<Json>): string
    decreases items, 0
  {
    if items == [] then ""
    else
      var first := if items[0].JNull? then "" else JsonString(items[0]);
      if |items| == 1 then first else first + "," + ElementsString(items[1..])
  }

  // ---------- the name rule ----------

  predicate IsAsciiUpper(c: char) { 'A' <= c <= 'Z' }

  /** `isValidName`: a non-empty string equal to its lower-case form, without white space, not starting with `.` or `_`. */
  predicate IsValidName(name: Option<Json>)
  {
    name.Some? && name.value.JStr? &&
    var s := name.value.s;
    |s| > 0 && ToLower(s) == s && (forall i :: 0 <= i < |s| ==> !IsJsSpace(s[i])) && s[0] != '.' && s[0] != '_'
  }

  /** A valid name is a non-empty string with no upper-case letter and no white space, not starting with `.` or `_`. */
  lemma {:induction false} NameRule(name: Option<Json>)
    ensures IsValidName(name) <==>
      name.Some? && name.value.JStr? && |name.value.s| > 0 &&
      (forall i :: 0 <= i < |name.value.s| ==> !IsAsciiUpper(name.value.s[i]) && !IsJsSpace(name.value.s[i])) &&
      name.value.s[0] != '.' && name.value.s[0] != '_'
  {
    if name.Some? && name.value.JStr? {
      LowerUnchanged(name.value.s);
    }
  }

  // ---------- the version rule ----------

  /** A non-empty run of ASCII digits: what `\d+` matches. */
  predicate DigitRun(x: string) { |x| > 0 && AllDigits(x) }

  function Dotted(a: string, b: string, c: string): string { a + "." + b + "." + c }

  /** `/^\d+\.\d+\.\d+$/` on a text: exactly three dot-separated pieces, each a run of digits. */
  predicate SemverText(s: string)
  {
    var parts := Split(s, '.');
    |parts| == 3 && DigitRun(parts[0]) && DigitRun(parts[1]) && DigitRun(parts[2])
  }

  /** `isSemver`: the regular expression tests the text `String(version)`. */
  predicate IsSemver(version: Option<Json>) { SemverText(JsString(version)) }

  lemma {:induction false} DottedJoin(a: string, b: string, c: string)
    ensures Join([a, b, c], ".") == Dotted(a, b, c)
  {
    assert [a, b, c][1..] == [b, c];
    assert [b, c][1..] == [c];
    assert Join([c], ".") == c;
    assert Join([b, c], ".") == b + "." + c;
    assert Join([a, b, c], ".") == a + "." + (b + "." + c);
  }

  /** Three runs of digits joined by dots split back into the same three runs. */
  lemma {:induction false} SemverOfDotted(a: string, b: string, c: string)
    requires DigitRun(a) && DigitRun(b) && DigitRun(c)
    ensures Split(Dotted(a, b, c), '.') == [a, b, c]
    ensures SemverText(Dotted(a, b, c))
  {
    DottedJoin(a, b, c);
    assert '.' !in a && '.' !in b && '.' !in c by {
      assert forall x, i :: DigitRun(x) && 0 <= i < |x| ==> x[i] != '.';
    }
    SplitJoin([a, b, c], '.');
  }

  /** A version text the rule accepts is three runs of digits joined by dots. */
  lemma {:induction false} SemverParts(s: string)
    requires SemverText(s)
    ensures var p := Split(s, '.'); s == Dotted(p[0], p[1], p[2])
  {
    var p := Split(s, '.');
    JoinSplit(s, '.');
    assert p == [p[0], p[1], p[2]];
    DottedJoin(p[0], p[1], p[2]);
  }

  /** The version rule accepts exactly the texts made of three runs of digits joined by dots. */
  lemma {:induction false} SemverShape(s: string)
    ensures SemverText(s) <==> exists a, b, c :: s == Dotted(a, b, c) && DigitRun(a) && DigitRun(b) && DigitRun(c)
  {
    if SemverText(s) {
      SemverParts(s);
      var p := Split(s, '.');
      assert s == Dotted(p[0], p[1], p[2]);
    }
    if exists a, b, c :: s == Dotted(a, b, c) && DigitRun(a) && DigitRun(b) && DigitRun(c) {
      var a, b, c :| s == Dotted(a, b, c) && DigitRun(a) && DigitRun(b) && DigitRun(c);
      SemverOfDotted(a, b, c);
    }
  }

  /** The three numbers of a version, each read by `parseInt(_, 10)`. */
  function Triple(s: string): (nat, nat, nat)
    requires SemverText(s)
  {
    var p := Split(s, '.');
    (DecimalValue(p[0]), DecimalValue(p[1]), DecimalValue(p[2]))
  }

  /** Lexicographic order on version triples. */
  predicate TripleLess(x: (nat, nat, nat), y: (nat, nat, nat))
  {
    x.0 < y.0 || (x.0 == y.0 && (x.1 < y.1 || (x.1 == y.1 && x.2 < y.2)))
  }

  // ---------- the bump ----------

  datatype BumpKind = Patch | Minor | Major

  /** The `switch (kind)` of the bump; anything else, `undefined` included, is unknown. */
  function KindOf(kind: Option<string>): Option<BumpKind>
  {
    if kind == Some("patch") then Some(Patch)
    else if kind == Some("minor") then Some(Minor)
    else if kind == Some("major") then Some(Major)
    else None
  }

  /** The ways the script stops with an error (`fail`, or a thrown TypeError). */
  datatype Fatal =
    | MissingName
    | InvalidName
    | MissingVersion
    | InvalidVersion
    | ExportsNotObject
    | CannotBump
    | VersionNotString
    | UnknownBumpKind
    | UnknownCommand(cmd: string)

  function Bumped(t: (nat, nat, nat), k: BumpKind): (nat, nat, nat)
  {
    match k
    case Patch => (t.0, t.1, t.2 + 1)
    case Minor => (t.0, t.1 + 1, 0)
    case Major => (t.0 + 1, 0, 0)
  }

  function TripleText(t: (nat, nat, nat)): string
  {
    Dotted(NatToDecimal(t.0), NatToDecimal(t.1), NatToDecimal(t.2))
  }

  /**
   * The new version `bumpVersion` computes. An array whose text passes the version
   * rule (`["1.2.3"]`) has no `split`, so the script throws a TypeError there.
   */
  function NextVersion(version: Option<Json>, kind: Option<string>): Result<string, Fatal>
  {
    if !IsSemver(version) then Err(CannotBump)
    else if version.None? || !version.value.JStr? then Err(VersionNotString)
    else
      match KindOf(kind)
      case None => Err(UnknownBumpKind)
      case Some(k) => Ok(TripleText(Bumped(Triple(version.value.s), k)))
  }

  lemma {:induction false} TripleTextValue(t: (nat, nat, nat))
    ensures SemverText(TripleText(t)) && Triple(TripleText(t)) == t
  {
    SemverOfDotted(NatToDecimal(t.0), NatToDecimal(t.1), NatToDecimal(t.2));
    DecimalRoundTrip(t.0);
    DecimalRoundTrip(t.1);
    DecimalRoundTrip(t.2);
  }

  /**
   * A successful bump yields a version the rule accepts again, whose numbers are the
   * old ones bumped (patch: last + 1; minor: middle + 1, last 0; major: first + 1, others 0),
   * and which is strictly greater than the old one.
   */
  lemma {:induction false} BumpResult(version: Option<Json>, kind: Option<string>)
    requires NextVersion(version, kind).Ok?
    ensures var next := NextVersion(version, kind).value;
      SemverText(next) && IsSemver(Some(JStr(next))) &&
      Triple(next) == Bumped(Triple(JsString(version)), KindOf(kind).value) &&
      TripleLess(Triple(JsString(version)), Triple(next))
  {
    var t := Triple(version.value.s);
    TripleTextValue(Bumped(t, KindOf(kind).value));
  }

  /** The bump fails exactly when the version is not `X.Y.Z`, is not a string, or the kind is unknown, in that order. */
  lemma {:induction false} BumpErrors(version: Option<Json>, kind: Option<string>)
    ensures NextVersion(version, kind) == Err(CannotBump) <==> !IsSemver(version)
    ensures NextVersion(version, kind) == Err(VersionNotString) <==> IsSemver(version) && !version.value.JStr?
    ensures NextVersion(version, kind) == Err(UnknownBumpKind) <==>
      IsSemver(version) && version.value.JStr? && KindOf(kind).None?
  {
    if IsSemver(version) {
      assert version.Some? by {
        if version.None? {
          UndefinedNotSemver();
        }
      }
    }
  }

  lemma {:induction false} UndefinedNotSemver()
    ensures !SemverText("undefined")
  {
    var s := "undefined";
    assert '.' !in s;
    SplitJoin([s], '.');
  }

  /** Leading zeros disappear: `01.2.3` bumped by patch is `1.2.4`. */
  lemma {:induction false} BumpLeadingZeros(v: string)
    requires v == "01.2.3"
    ensures NextVersion(Some(JStr(v)), Some("patch")) == Ok("1.2.4")
  {
    SemverOfDotted("01", "2", "3");
    assert v == Dotted("01", "2", "3");
    assert IsSemver(Some(JStr(v)));
    assert DecimalValue("01") == 1 && DecimalValue("2") == 2 && DecimalValue("3") == 3;
    assert Triple(v) == (1, 2, 3);
    assert Bumped((1, 2, 3), Patch) == (1, 2, 4);
    assert NatToDecimal(1) == "1" && NatToDecimal(2) == "2" && NatToDecimal(4) == "4";
    assert TripleText((1, 2, 4)) == "1.2.4";
  }

  /** package.json as the script holds it while it runs, and what it would write back. */
  class PackageFile {
    var pkg: Package
    /** The record `savePkg` would write, once a bump has succeeded. */
    var saved: Option<Package>

    constructor (pkg: Package)
      ensures this.pkg == pkg && saved == None
    {
      this.pkg := pkg;
      saved := None;
    }

    /** `bumpVersion`: on success only `version` changes and the record is saved; on failure nothing changes. */
    method BumpVersion(kind: Option<string>) returns (r: Result<string, Fatal>)
      modifies this
      ensures r == NextVersion(old(pkg.version), kind)
      ensures r.Ok? ==> pkg == old(pkg).(version := Some(JStr(r.value))) && saved == Some(pkg)
      ensures r.Err? ==> pkg == old(pkg) && saved == old(saved)
    {
      r := NextVersion(pkg.version, kind);
      if r.Ok? {
        pkg := pkg.(version := Some(JStr(r.value)));
        saved := Some(pkg);
      }
    }
  }

  // ---------- validation ----------

  /** The lines `validate` prints through `ok` and `warn`. */
  datatype Note =
    | PrivateNotTrue
    | PrivateTrue
    | MissingEnginesNode
    | EnginesNode(node: string)
    | ModuleType(t: string)
    | ExportsPresent
    | MissingDotExport
    | DotWithoutImportOrRequire
    | NoExports
    | ConsiderSideEffects
    | Passed

  predicate IsWarning(n: Note)
  {
    n.PrivateNotTrue? || n.MissingEnginesNode? || n.MissingDotExport? || n.DotWithoutImportOrRequire?
    || n.NoExports? || n.ConsiderSideEffects?
  }

  /** `pkg.type || 'commonjs'`, as printed. */
  function TypeText(pkg: Package): (t: string)
    ensures !Truthy(pkg.moduleType) ==> t == "commonjs"
    ensures pkg.moduleType == Some(JStr("module")) ==> t == "module"
    ensures Truthy(pkg.moduleType) ==> t == JsString(pkg.moduleType)
  {
    if Truthy(pkg.moduleType) then JsString(pkg.moduleType) else "commonjs"
  }

  /** The checks before the first note: a valid name and an `X.Y.Z` version. */
  predicate HeaderValid(pkg: Package)
  {
    Truthy(pkg.name) && IsValidName(pkg.name) && Truthy(pkg.version) && IsSemver(pkg.version)
  }

  /** `pkg.engines.node`. */
  function EnginesNodeOf(pkg: Package): Option<Json> { Property(pkg.engines, "node") }

  /** `pkg.exports['.']`. */
  function DotExport(pkg: Package): Option<Json> { Property(pkg.exports, ".") }

  /** `exports['.']` is set and is an object. */
  predicate DotIsObject(pkg: Package) { Truthy(DotExport(pkg)) && IsObjectType(DotExport(pkg)) }

  /** `exports['.']` names an `import` or a `require` entry point. */
  predicate DotHasEntry(pkg: Package)
  {
    Truthy(Property(DotExport(pkg), "import")) || Truthy(Property(DotExport(pkg), "require"))
  }

  /** The note on `private`. */
  function PrivateNote(pkg: Package): Note
  {
    if pkg.private == Some(JBool(true)) then PrivateTrue else PrivateNotTrue
  }

  /** The note on `engines.node`. */
  function EnginesNote(pkg: Package): Note
  {
    if !Truthy(pkg.engines) || !Truthy(EnginesNodeOf(pkg)) then MissingEnginesNode
    else EnginesNode(JsString(EnginesNodeOf(pkg)))
  }

  /** The only other fatal check: `exports`, when set, must be an object. */
  predicate ExportsValid(pkg: Package)
  {
    !Truthy(pkg.exports) || IsObjectType(pkg.exports)
  }

  /**
   * `validate`: the checks run in order and the first fatal one ends the pass; all
   * other findings are warnings, and a pass without a fatal finding ends with `Passed`.
   */
  method Validate(pkg: Package) returns (notes: seq<Note>, fatal: Option<Fatal>)
    ensures fatal == Some(MissingName) <==> !Truthy(pkg.name)
    ensures fatal == Some(InvalidName) <==> Truthy(pkg.name) && !IsValidName(pkg.name)
    ensures fatal == Some(MissingVersion) <==> Truthy(pkg.name) && IsValidName(pkg.name) && !Truthy(pkg.version)
    ensures fatal == Some(InvalidVersion) <==>
      Truthy(pkg.name) && IsValidName(pkg.name) && Truthy(pkg.version) && !IsSemver(pkg.version)
    ensures fatal == Some(ExportsNotObject) <==> HeaderValid(pkg) && !ExportsValid(pkg)
    ensures fatal == None <==> HeaderValid(pkg) && ExportsValid(pkg)
    ensures !HeaderValid(pkg) ==> notes == []
    ensures (Passed in notes) <==> fatal == None
    ensures fatal == None ==> notes[|notes| - 1] == Passed
    ensures (PrivateNotTrue in notes) <==> HeaderValid(pkg) && pkg.private != Some(JBool(true))
    ensures (NoExports in notes) <==> HeaderValid(pkg) && !Truthy(pkg.exports)
    ensures (ConsiderSideEffects in notes) <==> fatal == None && pkg.sideEffects.None?
    ensures fatal == Some(ExportsNotObject) ==> notes == FieldNotes(pkg)[..3]
    ensures fatal == None ==> notes == FieldNotes(pkg)
    ensures (MissingEnginesNode in notes) <==> HeaderValid(pkg) && !Truthy(EnginesNodeOf(pkg))
    ensures (ExportsPresent in notes) <==> fatal == None && Truthy(pkg.exports)
    ensures (MissingDotExport in notes) <==> fatal == None && Truthy(pkg.exports) && !DotIsObject(pkg)
    ensures (DotWithoutImportOrRequire in notes) <==>
      fatal == None && Truthy(pkg.exports) && DotIsObject(pkg) && !DotHasEntry(pkg)
  {
    notes := [];
    if !Truthy(pkg.name) {
      return notes, Some(MissingName);
    }
    if !IsValidName(pkg.name) {
      return notes, Some(InvalidName);
    }
    if !Truthy(pkg.version) {
      return notes, Some(MissingVersion);
    }
    if !IsSemver(pkg.version) {
      return notes, Some(InvalidVersion);
    }
    notes, fatal := CheckFields(pkg);
    FieldNotesKinds(pkg);
    FieldPrefix(pkg);
  }

  /** The notes `validate` prints after name and version when `exports` is absent or an object, in order. */
  function FieldNotes(pkg: Package): seq<Note>
  {
    [PrivateNote(pkg), EnginesNote(pkg), ModuleType(TypeText(pkg))]
    + ExportsNotes(pkg)
    + (if pkg.sideEffects.None? then [ConsiderSideEffects] else [])
    + [Passed]
  }

  /**
   * Which notes the field checks print: each warning exactly when its condition holds,
   * and `Passed` once, at the end.
   */
  lemma {:induction false} FieldNotesKinds(pkg: Package)
    ensures var notes := FieldNotes(pkg);
      |notes| >= 4 && notes[|notes| - 1] == Passed && Passed !in notes[..|notes| - 1] &&
      ((PrivateNotTrue in notes) <==> pkg.private != Some(JBool(true))) &&
      ((MissingEnginesNode in notes) <==> !Truthy(EnginesNodeOf(pkg))) &&
      ((ConsiderSideEffects in notes) <==> pkg.sideEffects.None?)
    ensures var notes := FieldNotes(pkg);
      ((NoExports in notes) <==> !Truthy(pkg.exports)) &&
      ((ExportsPresent in notes) <==> Truthy(pkg.exports)) &&
      ((MissingDotExport in notes) <==> Truthy(pkg.exports) && !DotIsObject(pkg)) &&
      ((DotWithoutImportOrRequire in notes) <==> Truthy(pkg.exports) && DotIsObject(pkg) && !DotHasEntry(pkg))
  {
    FieldNotesLast(pkg);
    FieldWarnings(pkg);
    ExportsWarnings(pkg);
  }

  lemma {:induction false} FieldWarnings(pkg: Package)
    ensures var notes := FieldNotes(pkg);
      ((PrivateNotTrue in notes) <==> pkg.private != Some(JBool(true))) &&
      ((MissingEnginesNode in notes) <==> !Truthy(EnginesNodeOf(pkg))) &&
      ((ConsiderSideEffects in notes) <==> pkg.sideEffects.None?)
  {
    FieldNotesIn(pkg, PrivateNotTrue);
    FieldNotesIn(pkg, MissingEnginesNode);
    FieldNotesIn(pkg, ConsiderSideEffects);
  }

  lemma {:induction false} ExportsWarnings(pkg: Package)
    ensures var notes := FieldNotes(pkg);
      ((NoExports in notes) <==> !Truthy(pkg.exports)) &&
      ((ExportsPresent in notes) <==> Truthy(pkg.exports)) &&
      ((MissingDotExport in notes) <==> Truthy(pkg.exports) && !DotIsObject(pkg)) &&
      ((DotWithoutImportOrRequire in notes) <==> Truthy(pkg.exports) && DotIsObject(pkg) && !DotHasEntry(pkg))
  {
    FieldNotesIn(pkg, NoExports);
    FieldNotesIn(pkg, ExportsPresent);
    FieldNotesIn(pkg, MissingDotExport);
    FieldNotesIn(pkg, DotWithoutImportOrRequire);
  }

  /** A note is among the field notes when it is one of the fixed three, an `exports` note, the side-effects hint or `Passed`. */
  lemma {:induction false} FieldNotesIn(pkg: Package, n: Note)
    ensures n in FieldNotes(pkg) <==>
      n == PrivateNote(pkg) || n == EnginesNote(pkg) || n == ModuleType(TypeText(pkg)) || n in ExportsNotes(pkg)
      || (n == ConsiderSideEffects && pkg.sideEffects.None?) || n == Passed
  {
  }

  /** `Passed` is the last field note and only there. */
  lemma {:induction false} FieldNotesLast(pkg: Package)
    ensures var notes := FieldNotes(pkg); |notes| >= 4 && notes[|notes| - 1] == Passed && Passed !in notes[..|notes| - 1]
  {
    var head := [PrivateNote(pkg), EnginesNote(pkg), ModuleType(TypeText(pkg))];
    var last: seq<Note> := if pkg.sideEffects.None? then [ConsiderSideEffects] else [];
    var notes := FieldNotes(pkg);
    assert notes[..|notes| - 1] == head + ExportsNotes(pkg) + last;
  }

  /** The first three field notes, printed before `exports` is checked. */
  lemma {:induction false} FieldPrefix(pkg: Package)
    ensures var head := FieldNotes(pkg)[..3];
      head == [PrivateNote(pkg), EnginesNote(pkg), ModuleType(TypeText(pkg))] &&
      ((PrivateNotTrue in head) <==> pkg.private != Some(JBool(true))) &&
      ((MissingEnginesNode in head) <==> !Truthy(EnginesNodeOf(pkg))) &&
      Passed !in head && NoExports !in head && ExportsPresent !in head && MissingDotExport !in head &&
      DotWithoutImportOrRequire !in head && ConsiderSideEffects !in head
  {
  }

  /** The checks of `validate` after name and version: only a non-object `exports` is fatal. */
  method CheckFields(pkg: Package) returns (notes: seq<Note>, fatal: Option<Fatal>)
    ensures fatal == None <==> ExportsValid(pkg)
    ensures fatal.Some? ==> fatal.value == ExportsNotObject && notes == FieldNotes(pkg)[..3]
    ensures fatal == None ==> notes == FieldNotes(pkg)
  {
    var head := [PrivateNote(pkg), EnginesNote(pkg), ModuleType(TypeText(pkg))];
    notes := head;
    if Truthy(pkg.exports) && !IsObjectType(pkg.exports) {
      return notes, Some(ExportsNotObject);
    }
    var more := ExportsNotes(pkg);
    var last := if pkg.sideEffects.None? then [ConsiderSideEffects] else [];
    notes := head + more + last + [Passed];
    fatal := None;
  }

  /** The notes on `exports` once it is known to be absent or an object. */
  function ExportsNotes(pkg: Package): (notes: seq<Note>)
    ensures notes != [] && notes[0] == (if Truthy(pkg.exports) then ExportsPresent else NoExports)
    ensures (NoExports in notes) <==> !Truthy(pkg.exports)
    ensures (ExportsPresent in notes) <==> Truthy(pkg.exports)
    ensures (MissingDotExport in notes) <==> Truthy(pkg.exports) && !DotIsObject(pkg)
    ensures (DotWithoutImportOrRequire in notes) <==> Truthy(pkg.exports) && DotIsObject(pkg) && !DotHasEntry(pkg)
    ensures forall n :: n in notes ==>
      n.NoExports? || n.ExportsPresent? || n.MissingDotExport? || n.DotWithoutImportOrRequire?
  {
    if Truthy(pkg.exports) then
      if !DotIsObject(pkg) then [ExportsPresent, MissingDotExport]
      else if !DotHasEntry(pkg) then [ExportsPresent, DotWithoutImportOrRequire]
      else [ExportsPresent]
    else [NoExports]
  }

  // ---------- entry resolution ----------

  /** Which entry point the interpretation line of `showEntries` names. */
  datatype Resolution = ViaExports | ViaMain | IndexFallback

  /** The three `kv` lines of `showEntries` and its interpretation. */
  datatype Entries = Entries(moduleType: string, main: string, exports: string, resolution: Resolution)

  /** `pkg.main ?? '(not set)'`, as printed: only an absent or null `main` counts as not set. */
  function MainText(pkg: Package): (t: string)
    ensures pkg.main.None? || pkg.main == Some(JNull) ==> t == "(not set)"
    ensures pkg.main == Some(JStr("")) ==> t == ""
    ensures pkg.main.Some? && !pkg.main.value.JNull? ==> t == JsString(pkg.main)
  {
    if pkg.main.None? || pkg.main.value.JNull? then "(not set)" else JsString(pkg.main)
  }

  /** `showEntries`: `exports` wins over `main`, `main` over the `index.js` convention; `type` defaults to `commonjs`. */
  function ShowEntries(pkg: Package): (e: Entries)
    ensures e.resolution == ViaExports <==> Truthy(pkg.exports)
    ensures e.resolution == ViaMain <==> !Truthy(pkg.exports) && Truthy(pkg.main)
    ensures e.resolution == IndexFallback <==> !Truthy(pkg.exports) && !Truthy(pkg.main)
    ensures e.exports == (if Truthy(pkg.exports) then "present" else "(not set)")
    ensures !Truthy(pkg.moduleType) ==> e.moduleType == "commonjs"
    ensures e.moduleType == TypeText(pkg) && e.main == MainText(pkg)
  {
    Entries(
      TypeText(pkg),
      MainText(pkg),
      if Truthy(pkg.exports) then "present" else "(not set)",
      if Truthy(pkg.exports) then ViaExports else if Truthy(pkg.main) then ViaMain else IndexFallback)
  }

  /** An empty `main` is printed as it is, yet resolution falls back to `index.js`. */
  lemma {:induction false} EmptyMainFallsBack(pkg: Package)
    requires !Truthy(pkg.exports) && pkg.main == Some(JStr(""))
    ensures ShowEntries(pkg).main == "" && ShowEntries(pkg).resolution == IndexFallback
  {
  }

  // ---------- padding and boxes ----------

  /** `padRight(s, n)`: exactly `n` characters, those of `s` first and then spaces. */
  function PadRight(s: string, n: nat): (r: string)
    ensures |r| == n
    ensures forall i :: 0 <= i < n ==> r[i] == if i < |s| then s[i] else ' '
  {
    (s + Repeat(' ', n))[..n]
  }

  /** The border glyphs of a box, one character each. */
  datatype Frame = Frame(
    topLeft: char, topRight: char, side: char, sepLeft: char, sepRight: char,
    bottomLeft: char, bottomRight: char, rule: char)

  predicate FrameWithoutNewline(f: Frame)
  {
    f.topLeft != '\n' && f.topRight != '\n' && f.side != '\n' && f.sepLeft != '\n'
    && f.sepRight != '\n' && f.bottomLeft != '\n' && f.bottomRight != '\n' && f.rule != '\n'
  }

  /** A horizontal border line between corner glyphs `l` and `r`. */
  function Border(l: char, r: char, f: Frame, width: nat): string
  {
    [l] + Repeat(f.rule, width) + [r]
  }

  /** A text line inside the box, padded to the inner width. */
  function BoxRow(f: Frame, text: string, width: nat): string
    requires width >= 2
  {
    [f.side, ' '] + PadRight(text, width - 2) + [' ', f.side]
  }

  function BoxRows(f: Frame, lines: seq<string>, width: nat): (rows: seq<string>)
    requires width >= 2
    ensures |rows| == |lines|
    ensures forall i :: 0 <= i < |lines| ==> rows[i] == BoxRow(f, lines[i], width)
  {
    seq(|lines|, i requires 0 <= i < |lines| => BoxRow(f, lines[i], width))
  }

  /**
   * `box(title, body, width)`: top border, title row, separator, one row per body line,
   * bottom border. The script throws a RangeError for a width below 2.
   */
  function Box(title: string, body: string, width: nat, f: Frame): string
    requires width >= 2
  {
    var rows := BoxRows(f, Split(body, '\n'), width);
    Join([Border(f.topLeft, f.topRight, f, width), BoxRow(f, title, width),
          Border(f.sepLeft, f.sepRight, f, width), Join(rows, "\n"),
          Border(f.bottomLeft, f.bottomRight, f, width)], "\n")
  }

  /** The lines of a box, in order. */
  function BoxLines(title: string, body: string, width: nat, f: Frame): (lines: seq<string>)
    requires width >= 2
  {
    [Border(f.topLeft, f.topRight, f, width), BoxRow(f, title, width), Border(f.sepLeft, f.sepRight, f, width)]
    + BoxRows(f, Split(body, '\n'), width)
    + [Border(f.bottomLeft, f.bottomRight, f, width)]
  }

  lemma {:induction false} BoxIsLines(title: string, body: string, width: nat, f: Frame)
    requires width >= 2
    ensures Box(title, body, width, f) == Join(BoxLines(title, body, width, f), "\n")
  {
    var top, head, sep := Border(f.topLeft, f.topRight, f, width), BoxRow(f, title, width), Border(f.sepLeft, f.sepRight, f, width);
    var btm := Border(f.bottomLeft, f.bottomRight, f, width);
    var rows := BoxRows(f, Split(body, '\n'), width);
    JoinConcat([top, head, sep], rows, "\n");
    JoinConcat([top, head, sep] + rows, [btm], "\n");
    JoinConcat([top, head, sep], [Join(rows, "\n")] + [btm], "\n");
    JoinConcat([Join(rows, "\n")], [btm], "\n");
    assert [top, head, sep, Join(rows, "\n"), btm] == [top, head, sep] + ([Join(rows, "\n")] + [btm]);
    assert Join([Join(rows, "\n")], "\n") == Join(rows, "\n");
    assert Join([btm], "\n") == btm;
  }

  lemma {:induction false} RowWithoutNewline(f: Frame, text: string, width: nat)
    requires width >= 2 && FrameWithoutNewline(f) && '\n' !in text
    ensures '\n' !in BoxRow(f, text, width) && |BoxRow(f, text, width)| == width + 2
  {
    var p := PadRight(text, width - 2);
    assert forall i :: 0 <= i < |p| ==> p[i] != '\n' by {
      assert forall i :: 0 <= i < |p| && i < |text| ==> text[i] in text;
    }
  }

  lemma {:induction false} LinesWithoutNewline(title: string, body: string, width: nat, f: Frame)
    requires width >= 2 && FrameWithoutNewline(f) && '\n' !in title
    ensures forall l :: l in BoxLines(title, body, width, f) ==> '\n' !in l && |l| == width + 2
  {
    var lines := Split(body, '\n');
    RowWithoutNewline(f, title, width);
    forall i | 0 <= i < |lines|
      ensures '\n' !in BoxRow(f, lines[i], width) && |BoxRow(f, lines[i], width)| == width + 2
    {
      assert lines[i] in lines;
      RowWithoutNewline(f, lines[i], width);
    }
  }

  /**
   * A box has one line per body line plus four frame lines, every line `width + 2`
   * characters wide, and body line `i` padded to `width - 2` on line `i + 3`.
   */
  lemma {:induction false} BoxLayout(title: string, body: string, width: nat, f: Frame)
    requires width >= 2 && FrameWithoutNewline(f) && '\n' !in title
    ensures var out := Split(Box(title, body, width, f), '\n');
      |out| == |Split(body, '\n')| + 4 &&
      (forall l :: l in out ==> |l| == width + 2) &&
      out[1] == [f.side, ' '] + PadRight(title, width - 2) + [' ', f.side] &&
      (forall i :: 0 <= i < |Split(body, '\n')| ==>
        out[i + 3] == [f.side, ' '] + PadRight(Split(body, '\n')[i], width - 2) + [' ', f.side])
  {
    BoxIsLines(title, body, width, f);
    LinesWithoutNewline(title, body, width, f);
    SplitJoin(BoxLines(title, body, width, f), '\n');
    BoxLinesShape(title, body, width, f);
  }

  lemma {:induction false} BoxLinesShape(title: string, body: string, width: nat, f: Frame)
    requires width >= 2
    ensures var lines := BoxLines(title, body, width, f);
      |lines| == |Split(body, '\n')| + 4 && lines[1] == BoxRow(f, title, width) &&
      forall i :: 0 <= i < |Split(body, '\n')| ==> lines[i + 3] == BoxRow(f, Split(body, '\n')[i], width)
  {
    var lines := BoxLines(title, body, width, f);
    var rows := BoxRows(f, Split(body, '\n'), width);
    assert forall i :: 0 <= i < |rows| ==> lines[i + 3] == rows[i];
  }

  // ---------- the command line ----------

  /** `args.filter(a => a !== flag)`. */
  function Without(args: seq<string>, flag: string): (r: seq<string>)
    ensures flag !in r && |r| <= |args|
    ensures forall x :: x in r <==> x in args && x != flag
    ensures flag !in args ==> r == args
  {
    if args == [] then []
    else (if args[0] == flag then [] else [args[0]]) + Without(args[1..], flag)
  }

  /** Filtering a concatenation filters each part. */
  lemma {:induction false} WithoutAppend(a: seq<string>, b: seq<string>, flag: string)
    ensures Without(a + b, flag) == Without(a, flag) + Without(b, flag)
  {
    if a == [] {
      assert a + b == b;
    } else {
      assert (a + b)[0] == a[0] && (a + b)[1..] == a[1..] + b;
      WithoutAppend(a[1..], b, flag);
    }
  }

  lemma {:induction false} WithoutCons(x: string, xs: seq<string>, flag: string)
    ensures Without([x] + xs, flag) == (if x == flag then [] else [x]) + Without(xs, flag)
  {
    assert ([x] + xs)[1..] == xs;
  }

  /** Filtering removes an occurrence of the flag wherever it stands. */
  lemma {:induction false} WithoutAnywhere(a: seq<string>, b: seq<string>, flag: string)
    ensures Without(a + [flag] + b, flag) == Without(a + b, flag)
  {
    WithoutAppend(a + [flag], b, flag);
    WithoutAppend(a, [flag], flag);
    WithoutAppend(a, b, flag);
    WithoutCons(flag, [], flag);
  }

  /** What `main` does. */
  datatype Command = Overview | RunValidate | RunEntries | RunBump(kind: Option<string>) | Unknown(cmd: string)

  /** The `switch` of `main` on the first argument that is not `--plain`; the second one is the bump kind. */
  function ChooseCommand(args: seq<string>): Command
  {
    var filtered := Without(args, "--plain");
    if filtered == [] then Overview
    else if filtered[0] == "validate" then RunValidate
    else if filtered[0] == "entries" then RunEntries
    else if filtered[0] == "bump" then RunBump(if |filtered| > 1 then Some(filtered[1]) else None)
    else Unknown(filtered[0])
  }

  /** `--plain` changes only the presentation: wherever it stands, the command is the same. */
  lemma {:induction false} PlainIgnored(a: seq<string>, b: seq<string>)
    ensures ChooseCommand(a + ["--plain"] + b) == ChooseCommand(a + b)
  {
    WithoutAnywhere(a, b, "--plain");
  }

  /** The outcome of one run of the script. */
  datatype Outcome =
    | ShowedOverview
    | Validated(notes: seq<Note>)
    | ShowedEntries(entries: Entries)
    | BumpedTo(version: string)
    | Failed(notes: seq<Note>, fatal: Fatal)

  /** `main`, once package.json is loaded: only a successful bump changes the record and saves it. */
  method Run(file: PackageFile, args: seq<string>) returns (outcome: Outcome)
    modifies file
    ensures ChooseCommand(args).RunBump? ==>
      file.pkg.version == (if outcome.BumpedTo? then Some(JStr(outcome.version)) else old(file.pkg.version))
    ensures outcome.BumpedTo? ==> file.saved == Some(file.pkg) && file.pkg == old(file.pkg).(version := file.pkg.version)
    ensures !outcome.BumpedTo? ==> file.pkg == old(file.pkg) && file.saved == old(file.saved)
    ensures ChooseCommand(args).Unknown? ==> outcome == Failed([], UnknownCommand(ChooseCommand(args).cmd))
    ensures ChooseCommand(args) == RunEntries ==> outcome == ShowedEntries(ShowEntries(file.pkg))
    ensures ChooseCommand(args) == Overview ==> outcome == ShowedOverview
    ensures ChooseCommand(args).RunBump? ==>
      var next := NextVersion(old(file.pkg.version), ChooseCommand(args).kind);
      outcome == if next.Ok? then BumpedTo(next.value) else Failed([], next.error)
    ensures ChooseCommand(args) == RunValidate ==>
      (outcome.Validated? || outcome.Failed?) &&
      (outcome.Failed? <==> !(HeaderValid(old(file.pkg)) && ExportsValid(old(file.pkg)))) &&
      (outcome.Validated? ==> outcome.notes != [] && outcome.notes[|outcome.notes| - 1] == Passed)
    ensures ChooseCommand(args) == RunValidate && outcome.Validated? ==> outcome.notes == FieldNotes(old(file.pkg))
    ensures ChooseCommand(args) == RunValidate ==>
      var p := old(file.pkg);
      && (outcome == Failed([], MissingName) <==> !Truthy(p.name))
      && (outcome == Failed([], InvalidName) <==> Truthy(p.name) && !IsValidName(p.name))
      && (outcome == Failed([], MissingVersion) <==> Truthy(p.name) && IsValidName(p.name) && !Truthy(p.version))
      && (outcome == Failed([], InvalidVersion) <==>
            Truthy(p.name) && IsValidName(p.name) && Truthy(p.version) && !IsSemver(p.version))
      && (outcome == Failed(FieldNotes(p)[..3], ExportsNotObject) <==> HeaderValid(p) && !ExportsValid(p))
  {
    match ChooseCommand(args)
    case Overview =>
      outcome := ShowedOverview;
    case RunValidate =>
      var notes, fatal := Validate(file.pkg);
      outcome := if fatal.None? then Validated(notes) else Failed(notes, fatal.value);
    case RunEntries =>
      outcome := ShowedEntries(ShowEntries(file.pkg));
    case RunBump(kind) =>
      var r := file.BumpVersion(kind);
      outcome := if r.Ok? then BumpedTo(r.value) else Failed([], r.error);
    case Unknown(cmd) =>
      outcome := Failed([], UnknownCommand(cmd));
  }
}
