/** The docs.jsonl checker: a schema check per record that collects every
    problem it finds, then, over the records that pass it, a duplicate-id
    check, character totals and the largest document, and an exit code. */
module ValidateDocs {
  import opened Util
  import opened PyStr
  import opened Json
  import opened PyInt
  import Ingest

  const RequiredTopKeys: set<string> := {"id", "module", "source", "text", "sha256", "created_at"}
  const RequiredSourceKeys: set<string> := {"path", "type"}

  /** One error message; `line` is the 1-based record number. */
  datatype DocError =
    | MissingKeys(line: nat, keys: set<string>)
    | BadId(line: nat)
    | BadModule(line: nat)
    | SourceNotObject(line: nat)
    | SourceMissingKeys(line: nat, keys: set<string>)
    | BadSourceType(line: nat)
    | BadSourcePath(line: nat)
    | BadText(line: nat)
    | BadSha256(line: nat)
    | BadCreatedAt(line: nat)
    | DuplicateId(line: nat, id: string)

  // ---------------------------------------------------------------------
  // `_is_hex_sha256`

  /** `_is_hex_sha256`: a string of length 64 that `int(s, 16)` accepts. */
  function IsHexSha256(j: Json): (ok: bool)
    ensures ok ==> j.JStr? && |j.s| == 64
  {
    j.JStr? && |j.s| == 64 && Int16Accepts(j.s)
  }

  /** Every 64-character string of hex digits is accepted. */
  lemma HexDigestAccepted(s: string)
    requires |s| == 64 && forall i :: 0 <= i < |s| ==> HexDigit(s[i])
    ensures IsHexSha256(JStr(s))
  {
    HexDigitsAccepted(s);
  }

  /** The check is looser than its name: a sign followed by 63 hex digits
      is 64 characters that `int(s, 16)` accepts, though it is no digest. */
  lemma SignedStringAccepted(s: string)
    requires |s| == 64 && s[0] == '-' && forall i :: 1 <= i < |s| ==> HexDigit(s[i])
    ensures IsHexSha256(JStr(s)) && !HexDigit(s[0])
  {
    SignedDigitsAccepted(s);
  }

  /** `int()` reads any Unicode decimal digit as its ASCII digit, so 64
      ARABIC-INDIC DIGIT ZERO characters pass as a digest. */
  lemma UnicodeDigestAccepted(s: string)
    requires |s| == 64 && forall i :: 0 <= i < |s| ==> s[i] == '\U{0660}'
    ensures IsHexSha256(JStr(s)) && !HexDigit(s[0])
  {
    ArabicIndicZerosAccepted(s);
  }

  /** A leading U+001C makes the digest check fail, because `int()` does
      not skip it, even when the rest is 63 hex digits that `str.strip`
      would leave bare. */
  lemma SeparatorDigestRejected(s: string)
    requires |s| == 64 && s[0] == '\U{001C}'
    ensures !IsHexSha256(JStr(s))
    ensures (forall i :: 1 <= i < |s| ==> HexDigit(s[i])) ==> Strip(s) == s[1..]
  {
    SeparatorRejected(s);
    if forall i :: 1 <= i < |s| ==> HexDigit(s[i]) {
      SeparatorStripped(s);
    }
  }

  // ---------------------------------------------------------------------
  // `validate_record`

  /** `isinstance(v, str) and v.strip()`. */
  predicate NonBlankStr(j: Json) {
    j.JStr? && NonBlank(j.s)
  }

  predicate HasTopKeys(rec: Object) {
    "id" in rec && "module" in rec && "source" in rec && "text" in rec && "sha256" in rec && "created_at" in rec
  }

  predicate HasSourceKeys(src: map<string, Json>) {
    "path" in src && "type" in src
  }

  /** No required key is missing exactly when all of them are present. */
  lemma TopKeysMissing(rec: Object)
    ensures RequiredTopKeys - rec.Keys == {} <==> HasTopKeys(rec)
  {
    var m := RequiredTopKeys - rec.Keys;
    if "id" !in rec { assert "id" in m; }
    else if "module" !in rec { assert "module" in m; }
    else if "source" !in rec { assert "source" in m; }
    else if "text" !in rec { assert "text" in m; }
    else if "sha256" !in rec { assert "sha256" in m; }
    else if "created_at" !in rec { assert "created_at" in m; }
    else { assert forall k :: k in RequiredTopKeys ==> k in rec; }
  }

  lemma SourceKeysMissing(src: map<string, Json>)
    ensures RequiredSourceKeys - src.Keys == {} <==> HasSourceKeys(src)
  {
    var m := RequiredSourceKeys - src.Keys;
    if "path" !in src { assert "path" in m; }
    else if "type" !in src { assert "type" in m; }
    else { assert forall k :: k in RequiredSourceKeys ==> k in src; }
  }

  predicate SourceValid(src: Json) {
    src.JObj? && HasSourceKeys(src.fields)
    && src.fields["type"] == JStr("rst") && NonBlankStr(src.fields["path"])
  }

  /** A record with nothing to report. */
  predicate DocRecordValid(rec: Object) {
    && HasTopKeys(rec)
    && NonBlankStr(rec["id"]) && NonBlankStr(rec["module"]) && SourceValid(rec["source"])
    && NonBlankStr(rec["text"]) && IsHexSha256(rec["sha256"]) && NonBlankStr(rec["created_at"])
  }

  /** One check: no message when it passes, its own message when not. */
  function Check(ok: bool, e: DocError): seq<DocError> {
    if ok then [] else [e]
  }

  /** A message about the `source` object. */
  predicate IsSourceError(e: DocError) {
    e.SourceNotObject? || e.SourceMissingKeys? || e.BadSourceType? || e.BadSourcePath?
  }

  function SourceErrors(src: Json, line: nat): (es: seq<DocError>)
    ensures es == [] <==> SourceValid(src)
    ensures forall e :: e in es ==> e.line == line && IsSourceError(e)
  {
    if !src.JObj? then [SourceNotObject(line)]
    else if !HasSourceKeys(src.fields) then [SourceMissingKeys(line, RequiredSourceKeys - src.fields.Keys)]
    else Check(src.fields["type"] == JStr("rst"), BadSourceType(line))
         + Check(NonBlankStr(src.fields["path"]), BadSourcePath(line))
  }

  /** The messages of a record that has every key, from the outcomes of
      its checks in the order the source runs them. */
  function Compose(line: nat, idOk: bool, moduleOk: bool, sourceErrs: seq<DocError>,
                   textOk: bool, shaOk: bool, createdOk: bool): seq<DocError> {
    Check(idOk, BadId(line)) + Check(moduleOk, BadModule(line)) + sourceErrs
    + Check(textOk, BadText(line)) + Check(shaOk, BadSha256(line)) + Check(createdOk, BadCreatedAt(line))
  }

  /** The messages `validate_record` returns. */
  function RecordErrors(rec: Object, line: nat): seq<DocError> {
    if !HasTopKeys(rec) then [MissingKeys(line, RequiredTopKeys - rec.Keys)]
    else
      Compose(line, NonBlankStr(rec["id"]), NonBlankStr(rec["module"]), SourceErrors(rec["source"], line),
              NonBlankStr(rec["text"]), IsHexSha256(rec["sha256"]), NonBlankStr(rec["created_at"]))
  }

  /** `validate_record`: each check appends its own message; a record
      missing a top-level key gets that one message and nothing else. */
  method ValidateRecord(rec: Object, line: nat) returns (errors: seq<DocError>)
    ensures errors == RecordErrors(rec, line)
  {
    errors := [];
    var missing := RequiredTopKeys - rec.Keys;
    TopKeysMissing(rec);
    if missing != {} {
      errors := errors + [MissingKeys(line, missing)];
      return;
    }
    var idOk := NonBlankStr(rec["id"]);
    errors := AddIfFailed(errors, idOk, BadId(line));
    assert errors == Check(idOk, BadId(line));
    var moduleOk := NonBlankStr(rec["module"]);
    errors := AddIfFailed(errors, moduleOk, BadModule(line));
    var sourceErrs := ValidateSource(rec["source"], line);
    errors := errors + sourceErrs;
    var textOk := NonBlankStr(rec["text"]);
    errors := AddIfFailed(errors, textOk, BadText(line));
    var shaOk := IsHexSha256(rec["sha256"]);
    errors := AddIfFailed(errors, shaOk, BadSha256(line));
    var createdOk := NonBlankStr(rec["created_at"]);
    errors := AddIfFailed(errors, createdOk, BadCreatedAt(line));
    assert errors == Compose(line, idOk, moduleOk, sourceErrs, textOk, shaOk, createdOk);
  }

  /** One check of `validate_record`: its message is appended when it fails. */
  method AddIfFailed(errors: seq<DocError>, ok: bool, e: DocError) returns (after: seq<DocError>)
    ensures after == errors + Check(ok, e)
  {
    after := errors;
    if !ok {
      after := after + [e];
    }
  }

  /** The `source` part of `validate_record`: a dict with both keys whose
      type is "rst" and whose path is a non-blank string. */
  method ValidateSource(src: Json, line: nat) returns (errors: seq<DocError>)
    ensures errors == SourceErrors(src, line)
  {
    errors := [];
    if !src.JObj? {
      errors := errors + [SourceNotObject(line)];
    } else {
      var missingSrc := RequiredSourceKeys - src.fields.Keys;
      SourceKeysMissing(src.fields);
      if missingSrc != {} {
        errors := errors + [SourceMissingKeys(line, missingSrc)];
      } else {
        var typeOk := src.fields["type"] == JStr("rst");
        if !typeOk { errors := errors + [BadSourceType(line)]; }
        var pathOk := NonBlankStr(src.fields["path"]);
        if !pathOk { errors := errors + [BadSourcePath(line)]; }
      }
    }
  }

  /** A message is among a record's messages exactly when one of its
      checks produced it. */
  lemma ComposeMembers(line: nat, idOk: bool, moduleOk: bool, sourceErrs: seq<DocError>,
                       textOk: bool, shaOk: bool, createdOk: bool, x: DocError)
    ensures x in Compose(line, idOk, moduleOk, sourceErrs, textOk, shaOk, createdOk) <==>
      || (!idOk && x == BadId(line)) || (!moduleOk && x == BadModule(line)) || x in sourceErrs
      || (!textOk && x == BadText(line)) || (!shaOk && x == BadSha256(line))
      || (!createdOk && x == BadCreatedAt(line))
  {
    var a := Check(idOk, BadId(line));
    var b := Check(moduleOk, BadModule(line));
    var c := Check(textOk, BadText(line));
    var d := Check(shaOk, BadSha256(line));
    var f := Check(createdOk, BadCreatedAt(line));
    assert Compose(line, idOk, moduleOk, sourceErrs, textOk, shaOk, createdOk) == a + b + sourceErrs + c + d + f;
  }

  /** Each failed flag check contributes its own message, and the list is
      empty exactly when every check passes. */
  lemma ComposeFlagFacts(line: nat, idOk: bool, moduleOk: bool, sourceErrs: seq<DocError>,
                         textOk: bool, shaOk: bool, createdOk: bool)
    requires forall e :: e in sourceErrs ==> IsSourceError(e)
    ensures var es := Compose(line, idOk, moduleOk, sourceErrs, textOk, shaOk, createdOk);
      && (es == [] <==> idOk && moduleOk && sourceErrs == [] && textOk && shaOk && createdOk)
      && (BadId(line) in es <==> !idOk)
      && (BadModule(line) in es <==> !moduleOk)
      && (BadText(line) in es <==> !textOk)
      && (BadSha256(line) in es <==> !shaOk)
      && (BadCreatedAt(line) in es <==> !createdOk)
  {
    var es := Compose(line, idOk, moduleOk, sourceErrs, textOk, shaOk, createdOk);
    ComposeMembers(line, idOk, moduleOk, sourceErrs, textOk, shaOk, createdOk, BadId(line));
    ComposeMembers(line, idOk, moduleOk, sourceErrs, textOk, shaOk, createdOk, BadModule(line));
    ComposeMembers(line, idOk, moduleOk, sourceErrs, textOk, shaOk, createdOk, BadText(line));
    ComposeMembers(line, idOk, moduleOk, sourceErrs, textOk, shaOk, createdOk, BadSha256(line));
    ComposeMembers(line, idOk, moduleOk, sourceErrs, textOk, shaOk, createdOk, BadCreatedAt(line));
    if es != [] {
      ComposeMembers(line, idOk, moduleOk, sourceErrs, textOk, shaOk, createdOk, es[0]);
    }
    if sourceErrs != [] {
      ComposeMembers(line, idOk, moduleOk, sourceErrs, textOk, shaOk, createdOk, sourceErrs[0]);
    }
  }

  /** The source messages are exactly the source-related messages in the
      list, and every message is on the record's line. */
  lemma ComposeSourceFacts(line: nat, idOk: bool, moduleOk: bool, sourceErrs: seq<DocError>,
                           textOk: bool, shaOk: bool, createdOk: bool)
    requires forall e :: e in sourceErrs ==> e.line == line && IsSourceError(e)
    ensures var es := Compose(line, idOk, moduleOk, sourceErrs, textOk, shaOk, createdOk);
      && (forall e :: e in sourceErrs ==> e in es)
      && (forall e :: e in es && IsSourceError(e) ==> e in sourceErrs)
      && (forall e :: e in es ==> e.line == line && !e.MissingKeys? && !e.DuplicateId?)
  {
    var es := Compose(line, idOk, moduleOk, sourceErrs, textOk, shaOk, createdOk);
    forall e | e in sourceErrs || e in es
      ensures e in sourceErrs ==> e in es
      ensures e in es ==> (IsSourceError(e) ==> e in sourceErrs) && e.line == line && !e.MissingKeys? && !e.DuplicateId?
    {
      ComposeMembers(line, idOk, moduleOk, sourceErrs, textOk, shaOk, createdOk, e);
    }
  }

  /** The messages of a record with every key: none exactly when every
      check passes, and each failed check contributes exactly its own. */
  lemma ComposeFacts(line: nat, idOk: bool, moduleOk: bool, sourceErrs: seq<DocError>,
                     textOk: bool, shaOk: bool, createdOk: bool)
    requires forall e :: e in sourceErrs ==> e.line == line && IsSourceError(e)
    ensures var es := Compose(line, idOk, moduleOk, sourceErrs, textOk, shaOk, createdOk);
      && (es == [] <==> idOk && moduleOk && sourceErrs == [] && textOk && shaOk && createdOk)
      && (BadId(line) in es <==> !idOk)
      && (BadModule(line) in es <==> !moduleOk)
      && (BadText(line) in es <==> !textOk)
      && (BadSha256(line) in es <==> !shaOk)
      && (BadCreatedAt(line) in es <==> !createdOk)
      && (forall e :: e in sourceErrs ==> e in es)
      && (forall e :: e in es && IsSourceError(e) ==> e in sourceErrs)
      && (forall e :: e in es ==> e.line == line && !e.MissingKeys? && !e.DuplicateId?)
  {
    ComposeFlagFacts(line, idOk, moduleOk, sourceErrs, textOk, shaOk, createdOk);
    ComposeSourceFacts(line, idOk, moduleOk, sourceErrs, textOk, shaOk, createdOk);
  }

  /** A record passes exactly when every check passes. */
  lemma RecordErrorsEmptyIff(rec: Object, line: nat)
    ensures RecordErrors(rec, line) == [] <==> DocRecordValid(rec)
  {
    if HasTopKeys(rec) {
      ComposeFacts(line, NonBlankStr(rec["id"]), NonBlankStr(rec["module"]), SourceErrors(rec["source"], line),
                   NonBlankStr(rec["text"]), IsHexSha256(rec["sha256"]), NonBlankStr(rec["created_at"]));
    }
  }

  /** A missing top-level key yields exactly one message, naming the
      missing keys, and no other check runs. */
  lemma MissingKeyStops(rec: Object, line: nat)
    requires RequiredTopKeys - rec.Keys != {}
    ensures RecordErrors(rec, line) == [MissingKeys(line, RequiredTopKeys - rec.Keys)]
  {
    TopKeysMissing(rec);
  }

  /** With every key present, each check reports its own failure and
      only its own failure, on the record's line. */
  lemma RecordErrorsCharacterised(rec: Object, line: nat)
    requires HasTopKeys(rec)
    ensures var es := RecordErrors(rec, line);
      && (BadId(line) in es <==> !NonBlankStr(rec["id"]))
      && (BadModule(line) in es <==> !NonBlankStr(rec["module"]))
      && (SourceNotObject(line) in es <==> !rec["source"].JObj?)
      && (BadSourceType(line) in es <==>
            rec["source"].JObj? && HasSourceKeys(rec["source"].fields) && rec["source"].fields["type"] != JStr("rst"))
      && (BadSourcePath(line) in es <==>
            rec["source"].JObj? && HasSourceKeys(rec["source"].fields) && !NonBlankStr(rec["source"].fields["path"]))
      && (BadText(line) in es <==> !NonBlankStr(rec["text"]))
      && (BadSha256(line) in es <==> !IsHexSha256(rec["sha256"]))
      && (BadCreatedAt(line) in es <==> !NonBlankStr(rec["created_at"]))
      && (forall e :: e in es ==> e.line == line && !e.MissingKeys? && !e.DuplicateId?)
  {
    var src := rec["source"];
    var se := SourceErrors(src, line);
    ComposeFacts(line, NonBlankStr(rec["id"]), NonBlankStr(rec["module"]), se,
                 NonBlankStr(rec["text"]), IsHexSha256(rec["sha256"]), NonBlankStr(rec["created_at"]));
    SourceErrorsCharacterised(src, line);
  }

  lemma SourceErrorsCharacterised(src: Json, line: nat)
    ensures var se := SourceErrors(src, line);
      && (SourceNotObject(line) in se <==> !src.JObj?)
      && (BadSourceType(line) in se <==> src.JObj? && HasSourceKeys(src.fields) && src.fields["type"] != JStr("rst"))
      && (BadSourcePath(line) in se <==> src.JObj? && HasSourceKeys(src.fields) && !NonBlankStr(src.fields["path"]))
  {
  }

  // ---------------------------------------------------------------------
  // The record loop of `main`

  /** What the loop takes from one record: the messages of a record that
      fails the schema check, or the fields it reads from one that passes. */
  datatype Checked =
    | Rejected(errors: seq<DocError>)
    | Accepted(id: string, moduleName: string, sourcePath: string, chars: nat)

  function CheckOf(rec: Object, line: nat): (c: Checked)
    ensures c.Accepted? <==> DocRecordValid(rec)
    ensures c.Rejected? ==> c.errors == RecordErrors(rec, line) && c.errors != []
    ensures c.Accepted? ==> c == Accepted(rec["id"].s, rec["module"].s, rec["source"].fields["path"].s, |rec["text"].s|)
  {
    RecordErrorsEmptyIff(rec, line);
    if DocRecordValid(rec) then Accepted(rec["id"].s, rec["module"].s, rec["source"].fields["path"].s, |rec["text"].s|)
    else Rejected(RecordErrors(rec, line))
  }

  /** The outcome of a record is read off its messages. */
  lemma CheckOfErrors(rec: Object, line: nat)
    ensures var errs := RecordErrors(rec, line);
      && (errs != [] ==> CheckOf(rec, line) == Rejected(errs))
      && (errs == [] ==> && rec["id"].JStr? && rec["module"].JStr? && rec["text"].JStr?
                         && rec["source"].JObj? && "path" in rec["source"].fields
                         && rec["source"].fields["path"].JStr?
                         && CheckOf(rec, line) == Accepted(rec["id"].s, rec["module"].s,
                                                           rec["source"].fields["path"].s, |rec["text"].s|))
  {
    RecordErrorsEmptyIff(rec, line);
  }

  /** The records' check outcomes, each with its 1-based line number. */
  function Checks(recs: seq<Object>): (cs: seq<Checked>)
    ensures |cs| == |recs|
  {
    seq(|recs|, k requires 0 <= k < |recs| => CheckOf(recs[k], k + 1))
  }

  lemma ChecksAt(recs: seq<Object>, k: nat)
    requires k < |recs|
    ensures Checks(recs)[k] == CheckOf(recs[k], k + 1)
  {
  }

  /** The largest document so far; the source starts it at -1
      characters, which every document exceeds (None here). */
  datatype Largest = Largest(id: string, moduleName: string, sourcePath: string, chars: nat)

  datatype Scan = Scan(totalDocs: nat, totalChars: nat, seen: set<string>, errors: seq<DocError>, largest: Option<Largest>)

  const InitialScan := Scan(0, 0, {}, [], None)

  /** One iteration of the loop, for record number `line`. */
  function ScanStep(st: Scan, c: Checked, line: nat): Scan {
    match c
    case Rejected(es) => st.(totalDocs := st.totalDocs + 1, errors := st.errors + es)
    case Accepted(id, m, p, n) =>
      Scan(st.totalDocs + 1, st.totalChars + n, st.seen + {id},
           st.errors + (if id in st.seen then [DuplicateId(line, id)] else []),
           if st.largest.None? || n > st.largest.value.chars then Some(Largest(id, m, p, n)) else st.largest)
  }

  /** The loop's state after the check outcomes `cs` of lines 1..|cs|. */
  function ScanChecked(cs: seq<Checked>): Scan {
    if cs == [] then InitialScan
    else ScanStep(ScanChecked(cs[..|cs| - 1]), cs[|cs| - 1], |cs|)
  }

  function ScanOf(recs: seq<Object>): Scan {
    ScanChecked(Checks(recs))
  }

  /** The exit code and the final state; a missing file is exit code 2. */
  datatype Report = Report(exitCode: int, scan: Scan)

  function ReportOf(fileExists: bool, recs: seq<Object>): Report {
    if !fileExists then Report(2, InitialScan)
    else
      var st := ScanOf(recs);
      Report(if st.errors != [] then 1 else 0, st)
  }

  /** `validate_docs.main` over the records of the file. */
  method ValidateDocs(fileExists: bool, recs: seq<Object>) returns (report: Report)
    ensures report == ReportOf(fileExists, recs)
  {
    if !fileExists {
      return Report(2, InitialScan);
    }
    ghost var cs := Checks(recs);
    var st := InitialScan;
    var i := 0;
    while i < |recs|
      invariant 0 <= i <= |recs|
      invariant ScanChecked(cs[..i]) == st
    {
      ScanPrefixStep(cs, i);
      var c := CheckRecord(recs[i], i + 1);
      st := ScanRecord(st, c, i + 1);
      i := i + 1;
    }
    assert cs[..|recs|] == cs;
    return Report(if st.errors != [] then 1 else 0, st);
  }

  lemma ScanPrefixStep(cs: seq<Checked>, i: nat)
    requires i < |cs|
    ensures ScanChecked(cs[..i + 1]) == ScanStep(ScanChecked(cs[..i]), cs[i], i + 1)
  {
    assert cs[..i + 1][..i] == cs[..i];
  }

  /** The rest of the loop body of `main`, once the record has been
      checked: a record that fails the schema check adds its messages; one
      that passes is checked for a repeated id, adds its length and may
      become the largest document. */
  method ScanRecord(st: Scan, c: Checked, line: nat) returns (next: Scan)
    ensures next == ScanStep(st, c, line)
  {
    var totalDocs := st.totalDocs + 1;
    var allErrors := st.errors;
    var seenIds := st.seen;
    var totalChars := st.totalChars;
    var largest := st.largest;
    match c
    case Rejected(errs) =>
      allErrors := allErrors + errs;
      return Scan(totalDocs, totalChars, seenIds, allErrors, largest);
    case Accepted(docId, moduleName, sourcePath, nChars) =>
      if docId in seenIds {
        allErrors := allErrors + [DuplicateId(line, docId)];
      } else {
        assert st.errors + [] == st.errors;
        seenIds := seenIds + {docId};
      }
      assert seenIds == st.seen + {docId};
      totalChars := totalChars + nChars;
      if largest.None? || nChars > largest.value.chars {
        largest := Some(Largest(docId, moduleName, sourcePath, nChars));
      }
      return Scan(totalDocs, totalChars, seenIds, allErrors, largest);
  }

  /** The schema check of one record, and the fields the loop reads from
      a record that passes it. */
  method CheckRecord(rec: Object, line: nat) returns (c: Checked)
    ensures c == CheckOf(rec, line)
  {
    var errs := ValidateRecord(rec, line);
    CheckOfErrors(rec, line);
    if errs != [] {
      return Rejected(errs);
    }
    return Accepted(rec["id"].s, rec["module"].s, rec["source"].fields["path"].s, |rec["text"].s|);
  }

  // ---------------------------------------------------------------------
  // What the loop computes, over the check outcomes

  /** The ids seen are those of the accepted records, and every record is
      counted. */
  lemma {:induction false} ScanSeen(cs: seq<Checked>)
    ensures ScanChecked(cs).seen == set k | 0 <= k < |cs| && cs[k].Accepted? :: cs[k].id
    ensures ScanChecked(cs).totalDocs == |cs|
  {
    if cs != [] {
      var pre := cs[..|cs| - 1];
      ScanSeen(pre);
      assert forall k :: 0 <= k < |pre| ==> cs[k] == pre[k];
    }
  }

  /** No message is reported exactly when every record is accepted and
      no two share an id. */
  lemma {:induction false} ScanClean(cs: seq<Checked>)
    requires forall k :: 0 <= k < |cs| && cs[k].Rejected? ==> cs[k].errors != []
    ensures ScanChecked(cs).errors == [] <==>
      && (forall k :: 0 <= k < |cs| ==> cs[k].Accepted?)
      && (forall a, b :: 0 <= a < b < |cs| ==> cs[a].id != cs[b].id)
  {
    if cs != [] {
      var pre := cs[..|cs| - 1];
      var last := cs[|cs| - 1];
      assert forall k :: 0 <= k < |pre| ==> cs[k] == pre[k];
      ScanClean(pre);
      ScanSeen(pre);
      if ScanChecked(cs).errors == [] {
        forall a, b | 0 <= a < b < |cs| ensures cs[a].id != cs[b].id {
          if b == |cs| - 1 {
            assert pre[a].id in ScanChecked(pre).seen;
          }
        }
      } else if ScanChecked(pre).errors == [] && last.Accepted? {
        assert last.id in ScanChecked(pre).seen;
        var k :| 0 <= k < |pre| && pre[k].Accepted? && pre[k].id == last.id;
        assert cs[k].id == cs[|cs| - 1].id;
      }
    }
  }

  /** A duplicate is reported on the line of an accepted record exactly
      when an earlier accepted record has the same id. */
  lemma {:induction false} ScanDuplicates(cs: seq<Checked>, line: nat, id: string)
    requires forall k :: 0 <= k < |cs| && cs[k].Rejected? ==> forall e :: e in cs[k].errors ==> !e.DuplicateId?
    ensures DuplicateId(line, id) in ScanChecked(cs).errors <==>
      && 1 <= line <= |cs| && cs[line - 1].Accepted? && cs[line - 1].id == id
      && exists k :: 0 <= k < line - 1 && cs[k].Accepted? && cs[k].id == id
  {
    if cs != [] {
      var pre := cs[..|cs| - 1];
      var last := cs[|cs| - 1];
      assert forall k :: 0 <= k < |pre| ==> cs[k] == pre[k];
      ScanDuplicates(pre, line, id);
      ScanSeen(pre);
      if line == |cs| && last.Accepted? && last.id == id && id in ScanChecked(pre).seen {
        var k :| 0 <= k < |pre| && pre[k].Accepted? && pre[k].id == id;
        assert cs[k].Accepted? && cs[k].id == id;
      }
    }
  }

  /** The largest document is an accepted record of maximal length, and
      the first such: the update uses a strict comparison. */
  lemma {:induction false} ScanLargest(cs: seq<Checked>)
    ensures ScanChecked(cs).largest.None? <==> forall k :: 0 <= k < |cs| ==> cs[k].Rejected?
    ensures ScanChecked(cs).largest.Some? ==> exists k :: LargestAt(cs, k, ScanChecked(cs).largest.value)
  {
    if cs != [] {
      var n := |cs| - 1;
      var pre := cs[..n];
      var last := cs[n];
      ScanPrefixStep(cs, n);
      assert cs[..n + 1] == cs;
      ScanLargest(pre);
      var before := ScanChecked(pre).largest;
      if last.Accepted? && (before.None? || last.chars > before.value.chars) {
        assert ScanChecked(cs).largest == Some(Largest(last.id, last.moduleName, last.sourcePath, last.chars));
        if before.Some? {
          var k :| LargestAt(pre, k, before.value);
        }
        LargestAtLast(cs);
      } else if before.Some? {
        assert ScanChecked(cs).largest == before;
        var k :| LargestAt(pre, k, before.value);
        LargestAtKept(cs, k, before.value);
      } else {
        assert ScanChecked(cs).largest.None?;
      }
    }
  }

  /** Record `k` is the first accepted record of maximal length in `cs`,
      and `l` is what the loop keeps of it. */
  predicate LargestAt(cs: seq<Checked>, k: int, l: Largest) {
    && 0 <= k < |cs| && cs[k].Accepted?
    && l == Largest(cs[k].id, cs[k].moduleName, cs[k].sourcePath, cs[k].chars)
    && (forall j :: 0 <= j < |cs| && cs[j].Accepted? ==> cs[j].chars <= cs[k].chars)
    && (forall j :: 0 <= j < k && cs[j].Accepted? ==> cs[j].chars < cs[k].chars)
  }

  lemma LargestAtLast(cs: seq<Checked>)
    requires cs != [] && cs[|cs| - 1].Accepted?
    requires forall j :: 0 <= j < |cs| - 1 && cs[j].Accepted? ==> cs[j].chars < cs[|cs| - 1].chars
    ensures var c := cs[|cs| - 1];
      LargestAt(cs, |cs| - 1, Largest(c.id, c.moduleName, c.sourcePath, c.chars))
  {
  }

  lemma LargestAtKept(cs: seq<Checked>, k: int, l: Largest)
    requires cs != [] && LargestAt(cs[..|cs| - 1], k, l)
    requires cs[|cs| - 1].Accepted? ==> cs[|cs| - 1].chars <= l.chars
    ensures LargestAt(cs, k, l)
  {
    assert forall j :: 0 <= j < |cs| - 1 ==> cs[j] == cs[..|cs| - 1][j];
  }

  /** The exit code: 2 for a missing file, 0 for a file whose records all
      pass the schema check with distinct ids, 1 otherwise. */
  lemma ExitCodes(fileExists: bool, recs: seq<Object>)
    ensures ReportOf(fileExists, recs).exitCode == 2 <==> !fileExists
    ensures ReportOf(fileExists, recs).exitCode == 0 <==>
      && fileExists
      && (forall k :: 0 <= k < |recs| ==> Checks(recs)[k].Accepted?)
      && (forall a, b :: 0 <= a < b < |recs| ==> Checks(recs)[a].id != Checks(recs)[b].id)
    ensures ReportOf(fileExists, recs).exitCode in {0, 1, 2}
  {
    if fileExists {
      ScanClean(Checks(recs));
    }
  }

  // ---------------------------------------------------------------------
  // The ingest stage's output

  /** Ingested documents pass the checker when the digest function
      returns 64 hex digits, the files have distinct paths and non-blank
      module names, blank files are excluded, the clock reading is not
      blank and the stored paths are the repository-relative ones. */
  lemma IngestOutputPasses(files: seq<Ingest.RawFile>, opts: Ingest.LoadOptions, env: Ingest.Environment)
    requires forall t: string :: |env.sha256(t)| == 64 && forall i :: 0 <= i < 64 ==> HexDigit(env.sha256(t)[i])
    requires forall a, b :: 0 <= a < b < |files| ==> files[a].relPath != files[b].relPath
    requires forall i :: 0 <= i < |files| ==> NonBlank(Ingest.ModuleNameFromPath(files[i].relPath))
    requires !opts.includeEmpty && opts.storeRepoRelativePaths && NonBlank(env.now)
    ensures ReportOf(true, Ingest.DocsJson(Ingest.LoadedDocs(files, opts, env))).exitCode == 0
  {
    var ds := Ingest.LoadedDocs(files, opts, env);
    var js := Ingest.DocsJson(ds);
    Ingest.LoadedDocIdsDistinct(files, opts, env);
    forall j | 0 <= j < |js| ensures Checks(js)[j].Accepted? && Checks(js)[j].id == ds[j].id {
      LoadedDocChecked(files, opts, env, j);
    }
    ExitCodes(true, js);
  }

  /** The check of the line of one ingested document accepts it under its
      own id. */
  lemma LoadedDocChecked(files: seq<Ingest.RawFile>, opts: Ingest.LoadOptions, env: Ingest.Environment, j: nat)
    requires forall t: string :: |env.sha256(t)| == 64 && forall i :: 0 <= i < 64 ==> HexDigit(env.sha256(t)[i])
    requires forall i :: 0 <= i < |files| ==> NonBlank(Ingest.ModuleNameFromPath(files[i].relPath))
    requires !opts.includeEmpty && opts.storeRepoRelativePaths && NonBlank(env.now)
    requires j < |Ingest.LoadedDocs(files, opts, env)|
    ensures var ds := Ingest.LoadedDocs(files, opts, env);
      Checks(Ingest.DocsJson(ds))[j] == Accepted(ds[j].id, ds[j].moduleName, ds[j].source.path, |ds[j].text|)
  {
    var ds := Ingest.LoadedDocs(files, opts, env);
    LoadedDocPasses(files, opts, env, j);
    ChecksAt(Ingest.DocsJson(ds), j);
  }

  /** One ingested document passes the schema check. */
  lemma LoadedDocPasses(files: seq<Ingest.RawFile>, opts: Ingest.LoadOptions, env: Ingest.Environment, j: nat)
    requires forall t: string :: |env.sha256(t)| == 64 && forall i :: 0 <= i < 64 ==> HexDigit(env.sha256(t)[i])
    requires forall i :: 0 <= i < |files| ==> NonBlank(Ingest.ModuleNameFromPath(files[i].relPath))
    requires !opts.includeEmpty && opts.storeRepoRelativePaths && NonBlank(env.now)
    requires j < |Ingest.LoadedDocs(files, opts, env)|
    ensures var d := Ingest.LoadedDocs(files, opts, env)[j];
      CheckOf(Ingest.DocJson(d), j + 1) == Accepted(d.id, d.moduleName, d.source.path, |d.text|)
  {
    Ingest.LoadedDocsShape(files, opts, env);
    var d := Ingest.LoadedDocs(files, opts, env)[j];
    var i :| 0 <= i < |files| && d.id == opts.idPrefix + ":" + files[i].relPath
      && d.text == files[i].text && d.moduleName == Ingest.ModuleNameFromPath(files[i].relPath)
      && d.source.kind == "rst" && d.createdAt == env.now
      && d.source.path == Ingest.RepoRawPrefix + files[i].relPath
      && NonBlank(d.text);
    IdNonBlank(opts.idPrefix, files[i].relPath);
    PathNonBlank(files[i].relPath);
    DocJsonPasses(d, j + 1);
  }

  lemma IdNonBlank(prefix: string, relPath: string)
    ensures NonBlank(prefix + ":" + relPath)
  {
    assert (prefix + ":" + relPath)[|prefix|] == ':';
  }

  lemma PathNonBlank(relPath: string)
    ensures NonBlank(Ingest.RepoRawPrefix + relPath)
  {
    assert (Ingest.RepoRawPrefix + relPath)[0] == 'd';
  }

  /** What the checker reads of a written document record. */
  lemma DocJsonFields(d: Ingest.DocRecord)
    ensures var o := Ingest.DocJson(d);
      && o.Keys == RequiredTopKeys
      && o["id"] == JStr(d.id) && o["module"] == JStr(d.moduleName) && o["text"] == JStr(d.text)
      && o["sha256"] == JStr(d.sha256) && o["created_at"] == JStr(d.createdAt)
      && o["source"] == JObj(map["path" := JStr(d.source.path), "type" := JStr(d.source.kind)])
  {
    var o := Ingest.DocJson(d);
    assert "module" != "source" && "module" != "sha256" && "source" != "sha256" by {
      assert "module"[0] != "source"[0] && "module"[0] != "sha256"[0];
      assert "source"[1] != "sha256"[1];
    }
  }

  /** A record whose fields are non-blank, whose source type is "rst" and
      whose digest is 64 hex digits passes the schema check. */
  lemma DocJsonPasses(d: Ingest.DocRecord, line: nat)
    requires NonBlank(d.id) && NonBlank(d.moduleName) && NonBlank(d.text) && NonBlank(d.createdAt)
    requires d.source.kind == "rst" && NonBlank(d.source.path)
    requires |d.sha256| == 64 && forall i :: 0 <= i < 64 ==> HexDigit(d.sha256[i])
    ensures CheckOf(Ingest.DocJson(d), line) == Accepted(d.id, d.moduleName, d.source.path, |d.text|)
  {
    DocJsonFields(d);
    HexDigestAccepted(d.sha256);
    var o := Ingest.DocJson(d);
    assert o["source"].fields.Keys == RequiredSourceKeys;
    assert DocRecordValid(o);
  }
}
