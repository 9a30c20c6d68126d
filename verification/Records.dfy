// The TOTP and password records of src/storage.rs as the tagged text they are stored as.
// Data that is not UTF-8 is None; the encoding itself is not part of this model.

module TotpRecords {
  import opened Results
  import opened TextFormat

  datatype Algorithm = HmacSha1 | HmacSha256 | HmacSha512 | NoAlgorithm

  function ShowAlgorithm(a: Algorithm): string {
    match a
    case HmacSha1 => "SHA1"
    case HmacSha256 => "SHA256"
    case HmacSha512 => "SHA512"
    case NoAlgorithm => "None"
  }

  function ReadAlgorithm(s: string): Option<Algorithm> {
    if s == "SHA1" || s == "None" then Some(HmacSha1)
    else if s == "SHA256" then Some(HmacSha256)
    else if s == "SHA512" then Some(HmacSha512)
    else None
  }

  datatype Totp = Totp(
    version: nat, secret: string, name: string, algorithm: Algorithm, notes: string,
    digits: nat, timestep: nat, ctime: nat, isHotp: bool)

  datatype Error =
    | BadVersion | BadAlgorithm | BadDigitsAmount | BadCtime | BadTimestep | BadHotp | MalformedInput

  datatype Field = Version | Secret | Name | Algo | Notes | Digits | Timestep | Hotp | Ctime | Unknown

  /** The records the two readers start from. */
  const BLANK := Totp(0, "", "", NoAlgorithm, "", 0, 0, 0, false)
  const CURRENT := Totp(2, "", "", HmacSha1, "", 0, 0, 0, false)

  function TagOf(f: Field): string {
    match f
    case Version => "version"
    case Secret => "secret"
    case Name => "name"
    case Algo => "algorithm"
    case Notes => "notes"
    case Digits => "digits"
    case Timestep => "timestep"
    case Hotp => "hotp"
    case Ctime => "ctime"
    case Unknown => ""
  }

  function FieldOf(tag: string): Field {
    if tag == "version" then Version
    else if tag == "secret" then Secret
    else if tag == "name" then Name
    else if tag == "algorithm" then Algo
    else if tag == "notes" then Notes
    else if tag == "digits" then Digits
    else if tag == "ctime" then Ctime
    else if tag == "timestep" then Timestep
    else if tag == "hotp" then Hotp
    else Unknown
  }

  function Assign(r: Totp, f: Field, data: string): Result<Totp, Error> {
    match f
    case Version => (match Read(data, 10, TWO_32) case Some(v) => Ok(r.(version := v)) case None => Err(BadVersion))
    case Secret => Ok(r.(secret := r.secret + data))
    case Name => Ok(r.(name := r.name + data))
    case Algo => (match ReadAlgorithm(data) case Some(a) => Ok(r.(algorithm := a)) case None => Err(BadAlgorithm))
    case Notes => Ok(r.(notes := r.notes + data))
    case Digits =>
      (match Read(data, 10, TWO_32) case Some(v) => Ok(r.(digits := v)) case None => Err(BadDigitsAmount))
    case Ctime => (match Read(data, 10, TWO_64) case Some(v) => Ok(r.(ctime := v)) case None => Err(BadCtime))
    case Timestep =>
      (match Read(data, 10, TWO_64) case Some(v) => Ok(r.(timestep := v)) case None => Err(BadTimestep))
    case Hotp => (match Read(data, 10, 256) case Some(v) => Ok(r.(isHotp := v != 0)) case None => Err(BadHotp))
    case Unknown => Ok(r)
  }

  function AssignTag(r: Totp, tag: string, data: string): Result<Totp, Error> { Assign(r, FieldOf(tag), data) }

  function From(start: Totp, data: Option<string>): Result<Totp, Error> {
    match data
    case None => Err(MalformedInput)
    case Some(text) => ReadLines(start, SplitLines(text), AssignTag)
  }

  /** The text printed for a field. */
  function Printed(r: Totp, f: Field): string {
    match f
    case Version => Show(r.version, 10)
    case Secret => r.secret
    case Name => r.name
    case Algo => ShowAlgorithm(r.algorithm)
    case Notes => r.notes
    case Digits => Show(r.digits, 10)
    case Timestep => Show(r.timestep, 10)
    case Hotp => Show(if r.isHotp then 1 else 0, 10)
    case Ctime => Show(r.ctime, 10)
    case Unknown => ""
  }

  const ORDER: seq<Field> := [Version, Secret, Name, Algo, Notes, Digits, Timestep, Hotp, Ctime]

  function FieldsOf(r: Totp): seq<(Field, string)> {
    Entries(r, ORDER)
  }

  function Entries(r: Totp, order: seq<Field>): seq<(Field, string)> {
    seq(|order|, i requires 0 <= i < |order| => (order[i], Printed(r, order[i])))
  }

  function ToVec(r: Totp): string { JoinLines(ToLines(Tagged(FieldsOf(r), TagOf))) }

  /** What is stored of a record, line by line. */
  function StoredLines(r: Totp): seq<string> {
    [
      "version" + ":" + Show(r.version, 10),
      "secret" + ":" + r.secret,
      "name" + ":" + r.name,
      "algorithm" + ":" + (match r.algorithm
                      case HmacSha1 => "SHA1" case HmacSha256 => "SHA256" case HmacSha512 => "SHA512"
                      case NoAlgorithm => "None"),
      "notes" + ":" + r.notes,
      "digits" + ":" + Show(r.digits, 10),
      "timestep" + ":" + Show(r.timestep, 10),
      "hotp" + ":" + Show(if r.isHotp then 1 else 0, 10),
      "ctime" + ":" + Show(r.ctime, 10)]
  }

  lemma PrintedLines(r: Totp)
    ensures ToVec(r) == JoinLines(StoredLines(r))
  {
    hide JoinLines, Show, ToLines, Tagged;
    TaggedLines(FieldsOf(r), TagOf);
    assert ToLines(Tagged(FieldsOf(r), TagOf)) == StoredLines(r);
  }

  /** The number fields by tag: below what they have to be, and the error otherwise. */
  const NUMBERS: map<string, (nat, Error)> := map[
    "version" := (0x1_0000_0000, BadVersion), "digits" := (0x1_0000_0000, BadDigitsAmount),
    "ctime" := (0x1_0000_0000_0000_0000, BadCtime), "timestep" := (0x1_0000_0000_0000_0000, BadTimestep),
    "hotp" := (0x100, BadHotp)]

  /** A text line goes on with its field, a number line replaces it, and a line of no known tag is skipped. */
  lemma LinesAssign(r: Totp, tag: string, data: string)
    ensures tag == "secret" ==> AssignTag(r, tag, data) == Ok(r.(secret := r.secret + data))
    ensures tag == "name" ==> AssignTag(r, tag, data) == Ok(r.(name := r.name + data))
    ensures tag == "notes" ==> AssignTag(r, tag, data) == Ok(r.(notes := r.notes + data))
    ensures tag in NUMBERS && Read(data, 10, NUMBERS[tag].0).Some? ==>
      var n := Read(data, 10, NUMBERS[tag].0).value;
      AssignTag(r, tag, data) == Ok(
        if tag == "version" then r.(version := n) else if tag == "digits" then r.(digits := n)
        else if tag == "ctime" then r.(ctime := n) else if tag == "timestep" then r.(timestep := n)
        else r.(isHotp := n != 0))
    ensures tag == "algorithm" && data in {"SHA1", "None", "SHA256", "SHA512"} ==>
      AssignTag(r, tag, data) == Ok(r.(algorithm :=
        if data == "SHA256" then HmacSha256 else if data == "SHA512" then HmacSha512 else HmacSha1))
    ensures tag !in NUMBERS && tag !in {"secret", "name", "notes", "algorithm"} ==> AssignTag(r, tag, data) == Ok(r)
  {
    hide Read;
  }

  /** What each reader starts from shows in an empty text. */
  lemma EmptyTextReads()
    ensures From(BLANK, Some("")) == Ok(Totp(0, "", "", NoAlgorithm, "", 0, 0, 0, false))
    ensures From(CURRENT, Some("")) == Ok(Totp(2, "", "", HmacSha1, "", 0, 0, 0, false))
  {
    assert SplitLines("") == [""];
    ReadBlankEnd(BLANK, AssignTag);
    ReadBlankEnd(CURRENT, AssignTag);
  }

  /** A line is refused only for a number that is none or too large, or an algorithm there is not. */
  lemma BadLinesAreNamed(r: Totp, tag: string, data: string)
    ensures AssignTag(r, tag, data).Err? <==>
      || (tag in NUMBERS && Read(data, 10, NUMBERS[tag].0) == None)
      || (tag == "algorithm" && data !in {"SHA1", "None", "SHA256", "SHA512"})
    ensures AssignTag(r, tag, data).Err? ==>
      AssignTag(r, tag, data).error == if tag in NUMBERS then NUMBERS[tag].1 else BadAlgorithm
  {
    hide Read;
  }

  // ---------- the two readers ----------

  method ReadInto(start: Totp, text: string) returns (r: Result<Totp, Error>)
    ensures r == From(start, Some(text))
  {
    var pr := start;
    var lines := SplitLines(text);
    for i := 0 to |lines|
      invariant ReadLines(start, lines, AssignTag) == ReadLines(pr, lines[i..], AssignTag)
    {
      assert lines[i..][1..] == lines[i + 1..];
      match SplitTag(lines[i])
      case None =>
      case Some((tag, data)) =>
        match AssignTag(pr, tag, data) {
          case Ok(next) => pr := next;
          case Err(e) => return Err(e);
        }
    }
    return Ok(pr);
  }

  method TryFrom(data: Option<string>) returns (r: Result<Totp, Error>)
    ensures r == From(CURRENT, data)
  {
    match data
    case None => r := Err(MalformedInput);
    case Some(text) => r := ReadInto(CURRENT, text);
  }

  /** The record object; from_vec replaces it only when the whole text could be read. */
  class TotpRecord {
    var record: Totp

    constructor ()
      ensures record == BLANK
    {
      record := BLANK;
    }

    method FromVec(data: Option<string>) returns (error: Option<Error>)
      modifies this
      ensures match From(BLANK, data)
        case Ok(r) => error == None && record == r
        case Err(e) => error == Some(e) && record == old(record)
    {
      if data == None {
        return Some(MalformedInput);
      }
      var r := ReadInto(BLANK, data.value);
      match r
      case Ok(pr) =>
        record := pr;
        error := None;
      case Err(e) => error := Some(e);
    }
  }

  // ---------- what the readers and the printer promise together ----------

  /** The widths of the number fields. */
  predicate Fits(r: Totp) {
    r.version < TWO_32 && r.digits < TWO_32 && r.timestep < TWO_64 && r.ctime < TWO_64
  }

  predicate OneLineTexts(r: Totp) { OneLine(r.secret) && OneLine(r.name) && OneLine(r.notes) }

  /** No algorithm is read back as SHA1. */
  function Normal(r: Totp): Totp { if r.algorithm == NoAlgorithm then r.(algorithm := HmacSha1) else r }

  lemma TagsReadBack()
    ensures TagsRead(TagOf, FieldOf)
  {
  }

  lemma AlgorithmReads(a: Algorithm)
    ensures ReadAlgorithm(ShowAlgorithm(a)) == Some(if a == NoAlgorithm then HmacSha1 else a)
    ensures OneLine(ShowAlgorithm(a))
  {
  }

  lemma PrintedIsOneLine(r: Totp, f: Field)
    requires OneLineTexts(r)
    ensures OneLine(Printed(r, f))
  {
    ShowIsDigits(r.version, 10);
    ShowIsDigits(r.digits, 10);
    ShowIsDigits(r.timestep, 10);
    ShowIsDigits(if r.isHotp then 1 else 0, 10);
    ShowIsDigits(r.ctime, 10);
    AlgorithmReads(r.algorithm);
  }

  lemma FieldsPrintable(r: Totp)
    requires OneLineTexts(r)
    ensures Printable(Tagged(FieldsOf(r), TagOf))
  {
    forall f | f in FieldsOf(r) ensures OneLine(f.1) {
      PrintedIsOneLine(r, f.0);
    }
    TagsReadBack();
    TaggedPrintable(FieldsOf(r), TagOf, FieldOf);
  }

  /** s with one field taken from r. */
  function Copied(s: Totp, r: Totp, f: Field): Totp {
    match f
    case Version => s.(version := r.version)
    case Secret => s.(secret := r.secret)
    case Name => s.(name := r.name)
    case Algo => s.(algorithm := Normal(r).algorithm)
    case Notes => s.(notes := r.notes)
    case Digits => s.(digits := r.digits)
    case Timestep => s.(timestep := r.timestep)
    case Hotp => s.(isHotp := r.isHotp)
    case Ctime => s.(ctime := r.ctime)
    case Unknown => s
  }

  lemma PrintedReadsBack(s: Totp, r: Totp, f: Field)
    requires Fits(r)
    requires (f == Secret ==> s.secret == "") && (f == Name ==> s.name == "") && (f == Notes ==> s.notes == "")
    ensures Assign(s, f, Printed(r, f)) == Ok(Copied(s, r, f))
  {
    match f
    case Version => ReadShow(r.version, 10, TWO_32);
    case Digits => ReadShow(r.digits, 10, TWO_32);
    case Timestep => ReadShow(r.timestep, 10, TWO_64);
    case Ctime => ReadShow(r.ctime, 10, TWO_64);
    case Hotp => ReadShow(if r.isHotp then 1 else 0, 10, 256);
    case Algo => AlgorithmReads(r.algorithm);
    case Secret => assert "" + r.secret == r.secret;
    case Name => assert "" + r.name == r.name;
    case Notes => assert "" + r.notes == r.notes;
    case Unknown =>
  }

  /** The records on the way from a blank one to the printed one, a field at a time. */
  function Steps(start: Totp, r: Totp): (rs: seq<Totp>)
    ensures |rs| == |ORDER| + 1
  {
    var s1 := Copied(start, r, Version);
    var s2 := Copied(s1, r, Secret);
    var s3 := Copied(s2, r, Name);
    var s4 := Copied(s3, r, Algo);
    var s5 := Copied(s4, r, Notes);
    var s6 := Copied(s5, r, Digits);
    var s7 := Copied(s6, r, Timestep);
    var s8 := Copied(s7, r, Hotp);
    [start, s1, s2, s3, s4, s5, s6, s7, s8, Copied(s8, r, Ctime)]
  }

  lemma StepsCopyTheFields(start: Totp, r: Totp)
    ensures forall i :: 0 <= i < |ORDER| ==> Steps(start, r)[i + 1] == Copied(Steps(start, r)[i], r, ORDER[i])
  {
    hide Copied;
  }

  lemma StepsReachTheRecord(start: Totp, r: Totp)
    requires start.secret == start.name == start.notes == "" && Fits(r)
    ensures var rs := Steps(start, r);
      rs[0] == start && rs[1].secret == rs[2].name == rs[4].notes == "" && rs[|ORDER|] == Normal(r)
  {
  }

  lemma FieldsRead(start: Totp, r: Totp)
    requires start.secret == start.name == start.notes == "" && Fits(r)
    ensures ReadFields(start, FieldsOf(r), Assign) == Ok(Normal(r))
  {
    var rs := Steps(start, r);
    StepsCopyTheFields(start, r);
    StepsReachTheRecord(start, r);
    hide Steps, Copied, Assign, Printed, Normal;
    forall i | 0 <= i < |ORDER| ensures Assign(rs[i], ORDER[i], Printed(r, ORDER[i])) == Ok(rs[i + 1]) {
      PrintedReadsBack(rs[i], r, ORDER[i]);
    }
    ReadThrough(rs, FieldsOf(r), Assign);
  }

  lemma AssignKeepsOneLine(r: Totp, f: Field, data: string)
    requires OneLineTexts(r) && OneLine(data) && Assign(r, f, data).Ok?
    ensures OneLineTexts(Assign(r, f, data).value)
  {
  }

  /** Printing a record and reading it back gives the record exactly when its texts are one line each. */
  lemma TotpRoundTrip(start: Totp, r: Totp)
    requires start.secret == start.name == start.notes == "" && Fits(r)
    ensures From(start, Some(ToVec(r))) == Ok(Normal(r)) <==> OneLineTexts(r)
  {
    hide TagOf, FieldOf, Assign, Printed, FieldsOf;
    if OneLineTexts(r) {
      FieldsPrintable(r);
      PrintedReadsAsFields(start, Tagged(FieldsOf(r), TagOf), AssignTag);
      TagsReadBack();
      TaggedReads(start, FieldsOf(r), TagOf, FieldOf, AssignTag, Assign);
      FieldsRead(start, r);
    } else {
      SplitGivesLines(ToVec(r));
      forall x, tag, data | OneLineTexts(x) && OneLine(data) && AssignTag(x, tag, data).Ok?
        ensures OneLineTexts(AssignTag(x, tag, data).value)
      {
        AssignKeepsOneLine(x, FieldOf(tag), data);
      }
      ReadingKeeps(start, SplitLines(ToVec(r)), AssignTag, OneLineTexts);
    }
  }

  /** Both readers give the printed record back, so they agree on it. */
  lemma ReadersAgreeOnPrinted(r: Totp)
    requires Fits(r) && OneLineTexts(r)
    ensures From(BLANK, Some(ToVec(r))) == From(CURRENT, Some(ToVec(r))) == Ok(Normal(r))
  {
    TotpRoundTrip(BLANK, r);
    TotpRoundTrip(CURRENT, r);
  }

  predicate Mentions(lines: seq<string>, f: Field) {
    exists l :: l in lines && SplitTag(l).Some? && FieldOf(SplitTag(l).value.0) == f
  }

  lemma MentionsFirst(lines: seq<string>, f: Field)
    requires lines != []
    ensures Mentions(lines, f) <==>
      (SplitTag(lines[0]).Some? && FieldOf(SplitTag(lines[0]).value.0) == f) || Mentions(lines[1..], f)
  {
    assert lines == [lines[0]] + lines[1..];
    if Mentions(lines[1..], f) {
      var l :| l in lines[1..] && SplitTag(l).Some? && FieldOf(SplitTag(l).value.0) == f;
      assert l in lines;
    }
  }

  /** Two records that differ at most in version and algorithm, and whether they do. */
  predicate Alike(a: Totp, b: Totp, sameVersion: bool, sameAlgorithm: bool) {
    && a.(version := b.version, algorithm := b.algorithm) == b
    && (a.version == b.version <==> sameVersion) && (a.algorithm == b.algorithm <==> sameAlgorithm)
  }

  lemma AssignKeepsAlike(a: Totp, b: Totp, v: bool, g: bool, f: Field, data: string)
    requires Alike(a, b, v, g)
    ensures Assign(a, f, data).Ok? == Assign(b, f, data).Ok?
    ensures Assign(a, f, data).Err? ==> Assign(a, f, data).error == Assign(b, f, data).error
    ensures Assign(a, f, data).Ok? ==>
      Alike(Assign(a, f, data).value, Assign(b, f, data).value, v || f == Version, g || f == Algo)
  {
  }

  lemma {:induction false} StartShowsOnlyWhereUnmentioned(a: Totp, b: Totp, v: bool, g: bool, lines: seq<string>)
    requires Alike(a, b, v, g)
    ensures var x, y := ReadLines(a, lines, AssignTag), ReadLines(b, lines, AssignTag);
      && x.Ok? == y.Ok? && (x.Err? ==> x.error == y.error)
      && (x.Ok? ==> Alike(x.value, y.value, v || Mentions(lines, Version), g || Mentions(lines, Algo)))
    decreases |lines|
  {
    if lines != [] {
      MentionsFirst(lines, Version);
      MentionsFirst(lines, Algo);
      match SplitTag(lines[0])
      case None => StartShowsOnlyWhereUnmentioned(a, b, v, g, lines[1..]);
      case Some((tag, data)) =>
        var f := FieldOf(tag);
        AssignKeepsAlike(a, b, v, g, f, data);
        if Assign(a, f, data).Ok? {
          StartShowsOnlyWhereUnmentioned(Assign(a, f, data).value, Assign(b, f, data).value,
            v || f == Version, g || f == Algo, lines[1..]);
        }
    }
  }

  /**
   * On any text the two readers report the same error, or read the same record exactly when
   * the text has a version line and an algorithm line.
   */
  lemma ReadersAgreeIff(text: string)
    ensures var x, y := From(BLANK, Some(text)), From(CURRENT, Some(text));
      && (x.Err? <==> y.Err?)
      && (x == y <==> x.Err? || (Mentions(SplitLines(text), Version) && Mentions(SplitLines(text), Algo)))
  {
    StartShowsOnlyWhereUnmentioned(BLANK, CURRENT, false, false, SplitLines(text));
  }
}

module PasswordRecords {
  import opened Results
  import opened TextFormat

  datatype Password = Password(
    version: nat, description: string, username: string, password: string, notes: string,
    ctime: nat, atime: nat, count: nat)

  datatype Error = MalformedInput | BadVersion | BadCount | BadCtime | BadAtime

  datatype Field = Version | Description | Username | Secret | Notes | Ctime | Atime | Count | Unknown

  const BLANK := Password(0, "", "", "", "", 0, 0, 0)
  const CURRENT := Password(1, "", "", "", "", 0, 0, 0)

  function TagOf(f: Field): string {
    match f
    case Version => "version"
    case Description => "description"
    case Username => "username"
    case Secret => "password"
    case Notes => "notes"
    case Ctime => "ctime"
    case Atime => "atime"
    case Count => "count"
    case Unknown => ""
  }

  function FieldOf(tag: string): Field {
    if tag == "version" then Version
    else if tag == "description" then Description
    else if tag == "username" then Username
    else if tag == "password" then Secret
    else if tag == "notes" then Notes
    else if tag == "ctime" then Ctime
    else if tag == "atime" then Atime
    else if tag == "count" then Count
    else Unknown
  }

  function Assign(r: Password, f: Field, data: string): Result<Password, Error> {
    match f
    case Version => (match Read(data, 10, TWO_32) case Some(v) => Ok(r.(version := v)) case None => Err(BadVersion))
    case Description => Ok(r.(description := r.description + data))
    case Username => Ok(r.(username := r.username + data))
    case Secret => Ok(r.(password := r.password + data))
    case Notes => Ok(r.(notes := r.notes + data))
    case Ctime => (match Read(data, 10, TWO_64) case Some(v) => Ok(r.(ctime := v)) case None => Err(BadCtime))
    case Atime => (match Read(data, 10, TWO_64) case Some(v) => Ok(r.(atime := v)) case None => Err(BadAtime))
    case Count => (match Read(data, 10, TWO_64) case Some(v) => Ok(r.(count := v)) case None => Err(BadCount))
    case Unknown => Ok(r)
  }

  function AssignTag(r: Password, tag: string, data: string): Result<Password, Error> {
    Assign(r, FieldOf(tag), data)
  }

  function From(start: Password, data: Option<string>): Result<Password, Error> {
    match data
    case None => Err(MalformedInput)
    case Some(text) => ReadLines(start, SplitLines(text), AssignTag)
  }

  /** The text printed for a field. */
  function Printed(r: Password, f: Field): string {
    match f
    case Version => Show(r.version, 10)
    case Description => r.description
    case Username => r.username
    case Secret => r.password
    case Notes => r.notes
    case Ctime => Show(r.ctime, 10)
    case Atime => Show(r.atime, 10)
    case Count => Show(r.count, 10)
    case Unknown => ""
  }

  const ORDER: seq<Field> := [Version, Description, Username, Secret, Notes, Ctime, Atime, Count]

  function FieldsOf(r: Password): seq<(Field, string)> {
    Entries(r, ORDER)
  }

  function Entries(r: Password, order: seq<Field>): seq<(Field, string)> {
    seq(|order|, i requires 0 <= i < |order| => (order[i], Printed(r, order[i])))
  }

  function ToVec(r: Password): string { JoinLines(ToLines(Tagged(FieldsOf(r), TagOf))) }

  /** What is stored of a record, line by line. */
  function StoredLines(r: Password): seq<string> {
    [
      "version" + ":" + Show(r.version, 10),
      "description" + ":" + r.description,
      "username" + ":" + r.username,
      "password" + ":" + r.password,
      "notes" + ":" + r.notes,
      "ctime" + ":" + Show(r.ctime, 10),
      "atime" + ":" + Show(r.atime, 10),
      "count" + ":" + Show(r.count, 10)]
  }

  lemma PrintedLines(r: Password)
    ensures ToVec(r) == JoinLines(StoredLines(r))
  {
    hide JoinLines, Show, ToLines, Tagged;
    TaggedLines(FieldsOf(r), TagOf);
    assert ToLines(Tagged(FieldsOf(r), TagOf)) == StoredLines(r);
  }

  /** The number fields by tag: below what they have to be, and the error otherwise. */
  const NUMBERS: map<string, (nat, Error)> := map[
    "version" := (0x1_0000_0000, BadVersion), "ctime" := (0x1_0000_0000_0000_0000, BadCtime),
    "atime" := (0x1_0000_0000_0000_0000, BadAtime), "count" := (0x1_0000_0000_0000_0000, BadCount)]

  /** A text line goes on with its field, a number line replaces it, and a line of no known tag is skipped. */
  lemma LinesAssign(r: Password, tag: string, data: string)
    ensures tag == "description" ==> AssignTag(r, tag, data) == Ok(r.(description := r.description + data))
    ensures tag == "username" ==> AssignTag(r, tag, data) == Ok(r.(username := r.username + data))
    ensures tag == "password" ==> AssignTag(r, tag, data) == Ok(r.(password := r.password + data))
    ensures tag == "notes" ==> AssignTag(r, tag, data) == Ok(r.(notes := r.notes + data))
    ensures tag in NUMBERS && Read(data, 10, NUMBERS[tag].0).Some? ==>
      var n := Read(data, 10, NUMBERS[tag].0).value;
      AssignTag(r, tag, data) == Ok(
        if tag == "version" then r.(version := n) else if tag == "ctime" then r.(ctime := n)
        else if tag == "atime" then r.(atime := n) else r.(count := n))
    ensures tag !in NUMBERS && tag !in {"description", "username", "password", "notes"} ==>
      AssignTag(r, tag, data) == Ok(r)
  {
    hide Read;
  }

  /** What each reader starts from shows in an empty text. */
  lemma EmptyTextReads()
    ensures From(BLANK, Some("")) == Ok(Password(0, "", "", "", "", 0, 0, 0))
    ensures From(CURRENT, Some("")) == Ok(Password(1, "", "", "", "", 0, 0, 0))
  {
    assert SplitLines("") == [""];
    ReadBlankEnd(BLANK, AssignTag);
    ReadBlankEnd(CURRENT, AssignTag);
  }

  /** A line is refused only for a number that is none or too large. */
  lemma BadLinesAreNamed(r: Password, tag: string, data: string)
    ensures AssignTag(r, tag, data).Err? <==> tag in NUMBERS && Read(data, 10, NUMBERS[tag].0) == None
    ensures AssignTag(r, tag, data).Err? ==> AssignTag(r, tag, data).error == NUMBERS[tag].1
  {
    hide Read;
  }

  // ---------- the readers ----------

  method TryFrom(data: Option<string>) returns (r: Result<Password, Error>)
    ensures r == From(CURRENT, data)
  {
    if data == None {
      return Err(MalformedInput);
    }
    var pr := CURRENT;
    var lines := SplitLines(data.value);
    for i := 0 to |lines|
      invariant ReadLines(CURRENT, lines, AssignTag) == ReadLines(pr, lines[i..], AssignTag)
    {
      assert lines[i..][1..] == lines[i + 1..];
      match SplitTag(lines[i])
      case None =>
      case Some((tag, value)) =>
        match AssignTag(pr, tag, value) {
          case Ok(next) => pr := next;
          case Err(e) => return Err(e);
        }
    }
    return Ok(pr);
  }

  /** The record object, read into over and over while the database is loaded. */
  class PasswordRecord {
    var version: nat
    var description: string
    var username: string
    var password: string
    var notes: string
    var ctime: nat
    var atime: nat
    var count: nat

    ghost function View(): Password
      reads this
    {
      Password(version, description, username, password, notes, ctime, atime, count)
    }

    constructor ()
      ensures View() == BLANK
    {
      version, description, username, password, notes := 0, "", "", "", "";
      ctime, atime, count := 0, 0, 0;
    }

    method Clear()
      modifies this
      ensures View() == BLANK
    {
      description, username, password, notes := "", "", "", "";
      version, ctime, atime, count := 0, 0, 0, 0;
    }

    /** Read a record in place. What was there before leaves no trace, whatever it was. */
    method FromVec(data: Option<string>) returns (error: Option<Error>)
      modifies this
      ensures From(BLANK, data).Ok? ==> error == None && View() == From(BLANK, data).value
      ensures From(BLANK, data).Err? ==> error == Some(From(BLANK, data).error)
    {
      Clear();
      if data == None {
        return Some(MalformedInput);
      }
      var lines := SplitLines(data.value);
      for i := 0 to |lines|
        invariant ReadLines(BLANK, lines, AssignTag) == ReadLines(View(), lines[i..], AssignTag)
      {
        assert lines[i..][1..] == lines[i + 1..];
        if SplitTag(lines[i]).Some? {
          var (tag, value) := SplitTag(lines[i]).value;
          error := AssignField(FieldOf(tag), value);
          if error.Some? {
            return;
          }
        }
      }
      return None;
    }

    method AssignField(f: Field, data: string) returns (error: Option<Error>)
      modifies this
      ensures Assign(old(View()), f, data).Ok? ==> error == None && View() == Assign(old(View()), f, data).value
      ensures Assign(old(View()), f, data).Err? ==> error == Some(Assign(old(View()), f, data).error)
    {
      error := None;
      match f {
        case Version =>
          var v := Read(data, 10, TWO_32);
          if v.Some? { version := v.value; } else { error := Some(BadVersion); }
        case Description => description := description + data;
        case Username => username := username + data;
        case Secret => password := password + data;
        case Notes => notes := notes + data;
        case Ctime =>
          var v := Read(data, 10, TWO_64);
          if v.Some? { ctime := v.value; } else { error := Some(BadCtime); }
        case Atime =>
          var v := Read(data, 10, TWO_64);
          if v.Some? { atime := v.value; } else { error := Some(BadAtime); }
        case Count =>
          var v := Read(data, 10, TWO_64);
          if v.Some? { count := v.value; } else { error := Some(BadCount); }
        case Unknown =>
      }
    }
  }

  // ---------- what the readers and the printer promise together ----------

  predicate Fits(r: Password) {
    r.version < TWO_32 && r.ctime < TWO_64 && r.atime < TWO_64 && r.count < TWO_64
  }

  predicate OneLineTexts(r: Password) {
    OneLine(r.description) && OneLine(r.username) && OneLine(r.password) && OneLine(r.notes)
  }

  lemma TagsReadBack()
    ensures TagsRead(TagOf, FieldOf)
  {
  }

  lemma PrintedIsOneLine(r: Password, f: Field)
    requires OneLineTexts(r)
    ensures OneLine(Printed(r, f))
  {
    ShowIsDigits(r.version, 10);
    ShowIsDigits(r.ctime, 10);
    ShowIsDigits(r.atime, 10);
    ShowIsDigits(r.count, 10);
  }

  lemma FieldsPrintable(r: Password)
    requires OneLineTexts(r)
    ensures Printable(Tagged(FieldsOf(r), TagOf))
  {
    forall f | f in FieldsOf(r) ensures OneLine(f.1) {
      PrintedIsOneLine(r, f.0);
    }
    TagsReadBack();
    TaggedPrintable(FieldsOf(r), TagOf, FieldOf);
  }

  /** s with one field taken from r. */
  function Copied(s: Password, r: Password, f: Field): Password {
    match f
    case Version => s.(version := r.version)
    case Description => s.(description := r.description)
    case Username => s.(username := r.username)
    case Secret => s.(password := r.password)
    case Notes => s.(notes := r.notes)
    case Ctime => s.(ctime := r.ctime)
    case Atime => s.(atime := r.atime)
    case Count => s.(count := r.count)
    case Unknown => s
  }

  lemma PrintedReadsBack(s: Password, r: Password, f: Field)
    requires Fits(r)
    requires (f == Description ==> s.description == "") && (f == Username ==> s.username == "")
    requires (f == Secret ==> s.password == "") && (f == Notes ==> s.notes == "")
    ensures Assign(s, f, Printed(r, f)) == Ok(Copied(s, r, f))
  {
    match f
    case Version => ReadShow(r.version, 10, TWO_32);
    case Ctime => ReadShow(r.ctime, 10, TWO_64);
    case Atime => ReadShow(r.atime, 10, TWO_64);
    case Count => ReadShow(r.count, 10, TWO_64);
    case Description => assert "" + r.description == r.description;
    case Username => assert "" + r.username == r.username;
    case Secret => assert "" + r.password == r.password;
    case Notes => assert "" + r.notes == r.notes;
    case Unknown =>
  }

  /** The records on the way from a blank one to the printed one, a field at a time. */
  function Steps(start: Password, r: Password): (rs: seq<Password>)
    ensures |rs| == |ORDER| + 1
  {
    var s1 := Copied(start, r, Version);
    var s2 := Copied(s1, r, Description);
    var s3 := Copied(s2, r, Username);
    var s4 := Copied(s3, r, Secret);
    var s5 := Copied(s4, r, Notes);
    var s6 := Copied(s5, r, Ctime);
    var s7 := Copied(s6, r, Atime);
    [start, s1, s2, s3, s4, s5, s6, s7, Copied(s7, r, Count)]
  }

  lemma StepsCopyTheFields(start: Password, r: Password)
    ensures forall i :: 0 <= i < |ORDER| ==> Steps(start, r)[i + 1] == Copied(Steps(start, r)[i], r, ORDER[i])
  {
    hide Copied;
  }

  lemma StepsReachTheRecord(start: Password, r: Password)
    requires start.description == start.username == start.password == start.notes == ""
    ensures var rs := Steps(start, r);
      && rs[0] == start && rs[|ORDER|] == r
      && rs[1].description == rs[2].username == rs[3].password == rs[4].notes == ""
  {
  }

  lemma FieldsRead(start: Password, r: Password)
    requires start.description == start.username == start.password == start.notes == "" && Fits(r)
    ensures ReadFields(start, FieldsOf(r), Assign) == Ok(r)
  {
    var rs := Steps(start, r);
    StepsCopyTheFields(start, r);
    StepsReachTheRecord(start, r);
    hide Steps, Copied, Assign, Printed;
    forall i | 0 <= i < |ORDER| ensures Assign(rs[i], ORDER[i], Printed(r, ORDER[i])) == Ok(rs[i + 1]) {
      PrintedReadsBack(rs[i], r, ORDER[i]);
    }
    ReadThrough(rs, FieldsOf(r), Assign);
  }

  /** Printing a record and reading it back gives the record exactly when its texts are one line each. */
  lemma PasswordRoundTrip(start: Password, r: Password)
    requires start.description == start.username == start.password == start.notes == "" && Fits(r)
    ensures From(start, Some(ToVec(r))) == Ok(r) <==> OneLineTexts(r)
  {
    if OneLineTexts(r) {
      FieldsPrintable(r);
      PrintedReadsAsFields(start, Tagged(FieldsOf(r), TagOf), AssignTag);
      TagsReadBack();
      TaggedReads(start, FieldsOf(r), TagOf, FieldOf, AssignTag, Assign);
      FieldsRead(start, r);
    } else {
      SplitGivesLines(ToVec(r));
      ReadingKeeps(start, SplitLines(ToVec(r)), AssignTag, OneLineTexts);
    }
  }

  predicate Mentions(lines: seq<string>, f: Field) {
    exists l :: l in lines && SplitTag(l).Some? && FieldOf(SplitTag(l).value.0) == f
  }

  lemma {:induction false} StartShowsOnlyWhereUnmentioned(a: Password, b: Password, lines: seq<string>)
    requires a.(version := b.version) == b
    ensures var x, y := ReadLines(a, lines, AssignTag), ReadLines(b, lines, AssignTag);
      && x.Ok? == y.Ok? && (x.Err? ==> x.error == y.error)
      && (x.Ok? ==>
            && x.value.(version := y.value.version) == y.value
            && (x.value == y.value <==> a == b || Mentions(lines, Version)))
    decreases |lines|
  {
    if lines != [] {
      assert lines == [lines[0]] + lines[1..];
      assert Mentions(lines, Version) <==>
        (SplitTag(lines[0]).Some? && FieldOf(SplitTag(lines[0]).value.0) == Version) || Mentions(lines[1..], Version);
      match SplitTag(lines[0])
      case None => StartShowsOnlyWhereUnmentioned(a, b, lines[1..]);
      case Some((tag, data)) =>
        if AssignTag(a, tag, data).Ok? {
          StartShowsOnlyWhereUnmentioned(AssignTag(a, tag, data).value, AssignTag(b, tag, data).value, lines[1..]);
        }
    }
  }

  /** On any text the two readers report the same error, or agree exactly when it has a version line. */
  lemma ReadersAgreeIff(text: string)
    ensures var x, y := From(BLANK, Some(text)), From(CURRENT, Some(text));
      && (x.Err? <==> y.Err?)
      && (x == y <==> x.Err? || Mentions(SplitLines(text), Version))
  {
    StartShowsOnlyWhereUnmentioned(BLANK, CURRENT, SplitLines(text));
  }
}
