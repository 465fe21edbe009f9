/** The super-admin project-codes tab: codes read from a JSON file are
    previewed (parsed, matched, flagged when already stored), counted,
    searched, and the new ones sent for import. */
module ProjectCodesTab {
  import opened Common
  import opened Json
  import opened ProjectCodes

  /** A stored project code as the tab reads it. */
  datatype StoredCode = StoredCode(code: Option<Json>, collegeName: Option<Json>)

  /** One preview row: the match result plus the duplicate flag. */
  datatype PreviewEntry = PreviewEntry(m: Matched, isDuplicate: bool)

  // ---------------------------------------------------------------------------
  // The duplicate flag
  // ---------------------------------------------------------------------------

  /** The flag as written: `pc.code === parsed.code`. parseProjectCode never
      returns a `code` field, so the right-hand side is always undefined. */
  predicate IsDuplicateAsWritten(stored: seq<StoredCode>, parsed: Code)
  {
    exists j :: 0 <= j < |stored| && SameOpt(stored[j].code, None)
  }

  /** The flag as intended: the parsed raw code is one of the stored codes. */
  predicate IsDuplicate(stored: seq<StoredCode>, parsed: Code)
  {
    exists j :: 0 <= j < |stored| && SameOpt(stored[j].code, parsed.rawCode)
  }

  /** Which duplicate test a preview applies: the page's own, or the
      intended one. */
  datatype DupTest = AsWritten | Intended

  predicate Flagged(test: DupTest, stored: seq<StoredCode>, parsed: Code)
  {
    match test
    case AsWritten => IsDuplicateAsWritten(stored, parsed)
    case Intended => IsDuplicate(stored, parsed)
  }

  /** As written, a code that is already stored is never flagged as long as
      every stored document has a code. */
  lemma StoredCodeNotFlagged(stored: seq<StoredCode>, s: string)
    requires s != ""
    requires forall j :: 0 <= j < |stored| ==> stored[j].code.Some?
    requires exists j :: 0 <= j < |stored| && stored[j].code == Some(JStr(s))
    ensures !IsDuplicateAsWritten(stored, ParseString(s))
    ensures IsDuplicate(stored, ParseString(s))
  {
    var j :| 0 <= j < |stored| && stored[j].code == Some(JStr(s));
    assert SameOpt(stored[j].code, ParseString(s).rawCode);
  }

  /** The concrete case: "ICCS/MSC/1st/TP/25-27" stored once and imported again. */
  lemma ReimportNotFlagged()
    ensures var stored := [StoredCode(Some(JStr("ICCS/MSC/1st/TP/25-27")), None)];
      !IsDuplicateAsWritten(stored, ParseString("ICCS/MSC/1st/TP/25-27"))
      && IsDuplicate(stored, ParseString("ICCS/MSC/1st/TP/25-27"))
  {
    var stored := [StoredCode(Some(JStr("ICCS/MSC/1st/TP/25-27")), None)];
    assert stored[0].code == Some(JStr("ICCS/MSC/1st/TP/25-27"));
    StoredCodeNotFlagged(stored, "ICCS/MSC/1st/TP/25-27");
  }

  // ---------------------------------------------------------------------------
  // importPreview and its counts
  // ---------------------------------------------------------------------------

  /** One row: parse, match, flag. A code that is not a string makes the
      parse throw. The page itself flags with the AsWritten test. */
  function PreviewRow(raw: Json, colleges: seq<College>, stored: seq<StoredCode>, test: DupTest): (r: Result<PreviewEntry>)
    ensures r.Ok? ==> (ParseProjectCode(Some(raw)).Ok?
      && MatchCollege(ParseProjectCode(Some(raw)).value, colleges) == Ok(r.value.m)
      && (r.value.isDuplicate <==> Flagged(test, stored, ParseProjectCode(Some(raw)).value)))
    ensures r.Err? <==> ParseProjectCode(Some(raw)).Err? || MatchCollege(ParseProjectCode(Some(raw)).value, colleges).Err?
  {
    match ParseProjectCode(Some(raw))
    case Err(e) => Err(e)
    case Ok(parsed) =>
      match MatchCollege(parsed, colleges)
      case Err(e) => Err(e)
      case Ok(m) => Ok(PreviewEntry(m, Flagged(test, stored, parsed)))
  }

  function Row(colleges: seq<College>, stored: seq<StoredCode>, test: DupTest): Json -> Result<PreviewEntry>
  {
    (raw: Json) => PreviewRow(raw, colleges, stored, test)
  }

  /** importPreview: one row per imported code, in order. */
  function ImportPreview(imported: seq<Json>, colleges: seq<College>, stored: seq<StoredCode>, test: DupTest): (r: Result<seq<PreviewEntry>>)
    ensures r.Ok? ==> (|r.value| == |imported|
      && forall i :: 0 <= i < |imported| ==> PreviewRow(imported[i], colleges, stored, test) == Ok(r.value[i]))
    ensures r.Err? <==> exists i :: 0 <= i < |imported| && PreviewRow(imported[i], colleges, stored, test).Err?
  {
    var rows := Map(imported, Row(colleges, stored, test));
    assert forall i :: 0 <= i < |imported| ==> rows[i] == PreviewRow(imported[i], colleges, stored, test);
    Collect(rows)
  }

  predicate IsValid(p: PreviewEntry) { p.m.code.status == Parsed }
  predicate IsMatched(p: PreviewEntry) { p.m.matched }
  predicate IsNew(p: PreviewEntry) { !p.isDuplicate }

  function ValidCount(preview: seq<PreviewEntry>): nat { CountIf(preview, IsValid) }
  function MatchedCount(preview: seq<PreviewEntry>): nat { CountIf(preview, IsMatched) }
  function NewCount(preview: seq<PreviewEntry>): nat { CountIf(preview, IsNew) }

  /** A matched row is a parsed row. */
  lemma {:induction false} MatchedAreValid(preview: seq<PreviewEntry>, colleges: seq<College>)
    requires forall i :: 0 <= i < |preview| ==> MatchCollege(preview[i].m.code, colleges) == Ok(preview[i].m)
    ensures MatchedCount(preview) <= ValidCount(preview)
  {
    if preview != [] {
      var p := preview[0];
      assert MatchCollege(p.m.code, colleges) == Ok(p.m);
      assert preview[1..] == preview[1..];
      MatchedAreValid(preview[1..], colleges);
    }
  }

  /** The three counters never exceed the number of rows, and only parsed
      rows can be matched. */
  lemma CountsBounded(imported: seq<Json>, colleges: seq<College>, stored: seq<StoredCode>, test: DupTest)
    requires ImportPreview(imported, colleges, stored, test).Ok?
    ensures var p := ImportPreview(imported, colleges, stored, test).value;
      MatchedCount(p) <= ValidCount(p) <= |imported| && NewCount(p) <= |imported|
  {
    var p := ImportPreview(imported, colleges, stored, test).value;
    MatchedAreValid(p, colleges);
  }

  // ---------------------------------------------------------------------------
  // filteredCodes
  // ---------------------------------------------------------------------------

  /** `x.toLowerCase().includes(q)` on a string value; a TypeError otherwise. */
  function CodeMatches(code: Option<Json>, q: string): (r: Result<bool>)
    ensures r.Err? <==> !(code.Some? && code.value.JStr?)
  {
    if code.Some? && code.value.JStr? then Ok(Contains(ToLower(code.value.s), q)) else Err(TypeError)
  }

  /** `x?.toLowerCase().includes(q)`: undefined or null is no match. */
  function NameMatches(name: Option<Json>, q: string): (r: Result<bool>)
    ensures r.Err? <==> name.Some? && !name.value.JStr? && !name.value.JNull?
  {
    match name
    case None => Ok(false)
    case Some(JNull) => Ok(false)
    case Some(JStr(s)) => Ok(Contains(ToLower(s), q))
    case Some(_) => Err(TypeError)
  }

  /** The search predicate; the name is only read when the code does not match. */
  function SearchHit(pc: StoredCode, q: string): (r: Result<bool>)
    ensures r == Ok(true) <==> (CodeMatches(pc.code, q) == Ok(true)
      || (CodeMatches(pc.code, q) == Ok(false) && NameMatches(pc.collegeName, q) == Ok(true)))
  {
    match CodeMatches(pc.code, q)
    case Err(e) => Err(e)
    case Ok(true) => Ok(true)
    case Ok(false) => NameMatches(pc.collegeName, q)
  }

  /** `Array.prototype.filter` with a predicate that may throw. */
  function FilterOrThrow(s: seq<StoredCode>, q: string): (r: Result<seq<StoredCode>>)
    ensures r.Ok? ==> |r.value| <= |s| && forall x :: x in r.value <==> x in s && SearchHit(x, q) == Ok(true)
    ensures r.Err? <==> exists i :: 0 <= i < |s| && SearchHit(s[i], q).Err?
  {
    if s == [] then Ok([])
    else
      match SearchHit(s[0], q)
      case Err(e) => Err(e)
      case Ok(keep) =>
        match FilterOrThrow(s[1..], q)
        case Err(e) =>
          assert forall i :: 1 <= i < |s| ==> s[i] == s[1..][i - 1];
          Err(e)
        case Ok(rest) =>
          assert forall i :: 1 <= i < |s| ==> s[i] == s[1..][i - 1];
          assert forall x :: x in s <==> x == s[0] || x in s[1..];
          Ok(if keep then [s[0]] + rest else rest)
  }

  /** filteredCodes: every code for an empty search; otherwise the codes
      whose code or college name contains the search, ignoring case. */
  function FilteredCodes(stored: seq<StoredCode>, searchQuery: string): (r: Result<seq<StoredCode>>)
    ensures searchQuery == "" ==> r == Ok(stored)
    ensures searchQuery != "" ==> r == FilterOrThrow(stored, ToLower(searchQuery))
  {
    if searchQuery == "" then Ok(stored) else FilterOrThrow(stored, ToLower(searchQuery))
  }

  /** Lower-casing an upper-cased query gives the lower-cased query. */
  lemma LowerOfUpper(q: string)
    ensures ToLower(ToUpper(q)) == ToLower(q)
  {
    assert forall i :: 0 <= i < |q| ==> Lower(Upper(q[i])) == Lower(q[i]);
  }

  /** The search ignores the case of the query. */
  lemma SearchIgnoresCase(stored: seq<StoredCode>, q: string)
    ensures FilteredCodes(stored, ToUpper(q)) == FilteredCodes(stored, q)
  {
    LowerOfUpper(q);
    if q != "" {
      assert ToUpper(q)[0] == Upper(q[0]);
    }
  }

  // ---------------------------------------------------------------------------
  // File reading and import
  // ---------------------------------------------------------------------------

  /** The codes of a parsed array: strings themselves, an object's truthy
      `code`, and nothing from any other item; falsy results are dropped. */
  function ExtractCodes(items: seq<Json>): (r: seq<Json>)
    ensures forall i :: 0 <= i < |r| ==> Truthy(Some(r[i]))
    ensures |r| <= |items|
  {
    if items == [] then []
    else
      var x := items[0];
      var c: Option<Json> := if x.JStr? then Some(x) else if x.JObj? && Truthy(Opt(Some(x), "code")) then Opt(Some(x), "code") else None;
      (if Truthy(c) then [c.value] else []) + ExtractCodes(items[1..])
  }

  /** Every non-empty string item and every object's truthy code is kept. */
  lemma {:induction false} ExtractKeeps(items: seq<Json>)
    ensures forall i :: 0 <= i < |items| && items[i].JStr? && items[i].s != "" ==> items[i] in ExtractCodes(items)
    ensures forall i :: 0 <= i < |items| && items[i].JObj? && Truthy(Opt(Some(items[i]), "code")) ==>
      Opt(Some(items[i]), "code").value in ExtractCodes(items)
  {
    if items != [] {
      ExtractKeeps(items[1..]);
      assert forall i :: 1 <= i < |items| ==> items[i] == items[1..][i - 1];
    }
  }

  /** What the file reader delivers: a file name and the outcome of
      `JSON.parse` on its text (Err carries the parser's message). */
  datatype Upload = Upload(name: string, parsed: Result<Json>)

  /** The tab's import state. */
  class ImportState {
    var importedCodes: seq<Json>
    var fileName: string
    var error: string
    var isImporting: bool
    var showImportModal: bool

    constructor ()
      ensures importedCodes == [] && fileName == "" && error == "" && !isImporting && !showImportModal
    {
      importedCodes := [];
      fileName := "";
      error := "";
      isImporting := false;
      showImportModal := false;
    }

    /** handleFileChange with its onload handler: no file changes nothing;
        otherwise the name is kept and the codes of a JSON array are
        imported, or the error is shown and the import list cleared. */
    method HandleFileChange(file: Option<Upload>)
      modifies this
      ensures file.None? ==> importedCodes == old(importedCodes) && fileName == old(fileName) && error == old(error)
      ensures file.Some? ==> fileName == file.value.name
      ensures file.Some? && file.value.parsed.Ok? && file.value.parsed.value.JArr?
              && ExtractCodes(file.value.parsed.value.items) != [] ==>
                importedCodes == ExtractCodes(file.value.parsed.value.items) && error == ""
      ensures file.Some? && file.value.parsed.Ok? && !file.value.parsed.value.JArr? ==>
                importedCodes == [] && error == "File must contain a JSON array"
      ensures file.Some? && file.value.parsed.Ok? && file.value.parsed.value.JArr?
              && ExtractCodes(file.value.parsed.value.items) == [] ==>
                importedCodes == [] && error == "No valid project codes found in array"
      ensures file.Some? && file.value.parsed.Err? ==>
                importedCodes == [] && error == (if file.value.parsed.msg != "" then file.value.parsed.msg else "Invalid JSON file")
      ensures isImporting == old(isImporting) && showImportModal == old(showImportModal)
    {
      if file.None? {
        return;
      }
      fileName := file.value.name;
      error := "";
      match file.value.parsed {
        case Err(msg) =>
          error := if msg != "" then msg else "Invalid JSON file";
          importedCodes := [];
        case Ok(json) =>
          if !json.JArr? {
            error := "File must contain a JSON array";
            importedCodes := [];
          } else {
            var codes := ExtractCodes(json.items);
            if |codes| == 0 {
              error := "No valid project codes found in array";
              importedCodes := [];
            } else {
              importedCodes := codes;
            }
          }
      }
    }

    /** handleImport: with rows, the raw codes of the rows not flagged are
        sent (sent is None when nothing is sent); success, or nothing to send,
        clears the import. callFails says whether addProjectCodes throws. */
    method HandleImport(preview: seq<PreviewEntry>, callFails: bool) returns (sent: Option<seq<Option<Json>>>)
      modifies this
      ensures preview == [] ==> sent.None? && importedCodes == old(importedCodes) && fileName == old(fileName)
                                && isImporting == old(isImporting) && showImportModal == old(showImportModal)
      ensures preview != [] ==> !isImporting
      ensures preview != [] && NewRawCodes(preview) == [] ==>
                sent.None? && importedCodes == [] && fileName == "" && !showImportModal
      ensures preview != [] && NewRawCodes(preview) != [] ==> sent == Some(NewRawCodes(preview))
      ensures preview != [] && NewRawCodes(preview) != [] && !callFails ==>
                importedCodes == [] && fileName == "" && !showImportModal
      ensures preview != [] && NewRawCodes(preview) != [] && callFails ==>
                importedCodes == old(importedCodes) && fileName == old(fileName) && showImportModal == old(showImportModal)
      ensures error == old(error)
    {
      if |preview| == 0 {
        return None;
      }
      isImporting := true;
      var rawCodes := NewRawCodes(preview);
      if |rawCodes| == 0 {
        importedCodes := [];
        fileName := "";
        showImportModal := false;
        isImporting := false;
        return None;
      }
      sent := Some(rawCodes);
      if !callFails {
        importedCodes := [];
        fileName := "";
        showImportModal := false;
      }
      isImporting := false;
    }
  }

  /** `importPreview.filter(p => !p.isDuplicate).map(p => p.rawCode)`. */
  function NewRawCodes(preview: seq<PreviewEntry>): (r: seq<Option<Json>>)
    ensures |r| == NewCount(preview)
  {
    CountIsFilterLength(preview, IsNew);
    Map(Filter(preview, IsNew), (p: PreviewEntry) => p.m.code.rawCode)
  }

  /** With the intended test, every raw code sent for import is one that no
      stored document has. */
  lemma SentCodesAreNew(imported: seq<Json>, colleges: seq<College>, stored: seq<StoredCode>)
    requires ImportPreview(imported, colleges, stored, Intended).Ok?
    ensures var sent := NewRawCodes(ImportPreview(imported, colleges, stored, Intended).value);
      forall k, j :: 0 <= k < |sent| && 0 <= j < |stored| ==> !SameOpt(stored[j].code, sent[k])
  {
    var preview := ImportPreview(imported, colleges, stored, Intended).value;
    var kept := Filter(preview, IsNew);
    var sent := NewRawCodes(preview);
    forall k, j | 0 <= k < |sent| && 0 <= j < |stored|
      ensures !SameOpt(stored[j].code, sent[k])
    {
      assert sent[k] == kept[k].m.code.rawCode;
      FilterMembers(preview, IsNew, kept[k]);
      var i :| 0 <= i < |preview| && preview[i] == kept[k];
      var parsed := ParseProjectCode(Some(imported[i])).value;
      assert PreviewRow(imported[i], colleges, stored, Intended) == Ok(preview[i]);
      assert preview[i].m.code == parsed;
      assert !IsDuplicate(stored, parsed);
    }
  }

  /** With the page's own test the flag does not depend on the row: when
      some stored document has no code every row is flagged and nothing is
      sent; when every stored document has one no row is flagged and every
      raw code is sent, stored or not. */
  lemma AsWrittenAllOrNothing(imported: seq<Json>, colleges: seq<College>, stored: seq<StoredCode>)
    requires ImportPreview(imported, colleges, stored, AsWritten).Ok?
    ensures var preview := ImportPreview(imported, colleges, stored, AsWritten).value;
      ((exists j :: 0 <= j < |stored| && stored[j].code.None?) ==> NewRawCodes(preview) == [])
      && ((forall j :: 0 <= j < |stored| ==> stored[j].code.Some?) ==>
            NewRawCodes(preview) == Map(preview, (p: PreviewEntry) => p.m.code.rawCode))
  {
    var preview := ImportPreview(imported, colleges, stored, AsWritten).value;
    forall i | 0 <= i < |preview|
      ensures preview[i].isDuplicate <==> exists j :: 0 <= j < |stored| && stored[j].code.None?
    {
      assert PreviewRow(imported[i], colleges, stored, AsWritten) == Ok(preview[i]);
    }
    if exists j :: 0 <= j < |stored| && stored[j].code.None? {
      FilterNone(preview, IsNew);
    } else {
      FilterAll(preview, IsNew);
    }
  }
}
