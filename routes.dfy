/** The string and decision logic of the backend's HTTP routes: the OCR text
    normaliser, the names under which uploads and their extracted text are
    stored and listed, the combined corpus served to the global assistant,
    the access-token lifetime and the guard chains of the login, document
    and delete endpoints. The file system, the database, bcrypt and JWT
    encoding are inputs. */
module Routes {
  import opened Wrappers
  import opened Text

  // ---------------------------------------------------------------------
  // Python's str.strip()
  // ---------------------------------------------------------------------

  /** The characters `str.isspace()` accepts. */
  predicate IsPySpace(c: char)
  {
    c == ' ' || '\t' <= c <= '\r' || '\U{1C}' <= c <= '\U{1F}' || c == '\U{85}' || c == '\U{A0}'
    || c == '\U{1680}' || '\U{2000}' <= c <= '\U{200A}' || c == '\U{2028}' || c == '\U{2029}'
    || c == '\U{202F}' || c == '\U{205F}' || c == '\U{3000}'
  }

  /** A line made of whitespace only (the empty line included). */
  predicate IsBlank(s: string)
  {
    forall i :: 0 <= i < |s| ==> IsPySpace(s[i])
  }

  /** `s.lstrip()`. */
  function StripStart(s: string): string
    decreases |s|
  {
    if s != [] && IsPySpace(s[0]) then StripStart(s[1..]) else s
  }

  /** `s.rstrip()`. */
  function StripEnd(s: string): string
    decreases |s|
  {
    if s != [] && IsPySpace(s[|s| - 1]) then StripEnd(s[..|s| - 1]) else s
  }

  /** `s.strip()`. */
  function Strip(s: string): string
  {
    StripEnd(StripStart(s))
  }

  /** `lstrip` drops exactly the leading whitespace: what it removes is
      whitespace and what it keeps is a suffix not starting with any. */
  lemma {:induction false} StripStartRemovesLeadingSpace(s: string)
    ensures var r := StripStart(s);
            |r| <= |s| && r == s[|s| - |r|..]
            && (forall i :: 0 <= i < |s| - |r| ==> IsPySpace(s[i]))
            && (r != [] ==> !IsPySpace(r[0]))
    decreases |s|
  {
    if s != [] && IsPySpace(s[0]) {
      StripStartRemovesLeadingSpace(s[1..]);
    }
  }

  /** `rstrip` drops exactly the trailing whitespace. */
  lemma {:induction false} StripEndRemovesTrailingSpace(s: string)
    ensures var r := StripEnd(s);
            |r| <= |s| && r == s[..|r|]
            && (forall i :: |r| <= i < |s| ==> IsPySpace(s[i]))
            && (r != [] ==> !IsPySpace(r[|r| - 1]))
    decreases |s|
  {
    if s != [] && IsPySpace(s[|s| - 1]) {
      StripEndRemovesTrailingSpace(s[..|s| - 1]);
    }
  }

  /** `not line.strip()` holds exactly of the blank lines. */
  lemma StripEmptyIffBlank(s: string)
    ensures Strip(s) == "" <==> IsBlank(s)
  {
    var t := StripStart(s);
    StripStartRemovesLeadingSpace(s);
    StripEndRemovesTrailingSpace(t);
    if t != [] {
      assert t[0] == s[|s| - |t|];
      assert StripEnd(t) != "";
    }
  }

  // ---------------------------------------------------------------------
  // clean_text (routes.py:76-107)
  // ---------------------------------------------------------------------

  /** Emits the pending paragraph, if any, as one space-joined entry. */
  function Flush(pending: seq<string>): seq<string>
  {
    if pending == [] then [] else [Join(pending, " ")]
  }

  /** The entries `clean_text` produces for `lines` when the lines in
      `pending` are still waiting to be joined into a paragraph. */
  function Entries(lines: seq<string>, pending: seq<string>): seq<string>
    decreases |lines|
  {
    if lines == [] then Flush(pending)
    else if Strip(lines[0]) == "" then Flush(pending) + [""] + Entries(lines[1..], [])
    else Entries(lines[1..], pending + [Strip(lines[0])])
  }

  /** What `clean_text(text)` returns. */
  function CleanedText(text: string): string
  {
    Join(Entries(Split(text, '\n'), []), "\n\n")
  }

  /** `clean_text`: one pass over the lines of `text`, collecting stripped
      non-blank lines into a paragraph and emitting a paragraph break for
      every blank line. */
  method CleanText(text: string) returns (cleaned: string)
    ensures cleaned == CleanedText(text)
  {
    var lines := Split(text, '\n');
    var processed: seq<string> := [];
    var current: seq<string> := [];
    assert lines[0..] == lines;
    for k := 0 to |lines|
      invariant processed + Entries(lines[k..], current) == Entries(lines, [])
    {
      var line := lines[k];
      if Strip(line) == "" {
        BlankStep(lines, k, processed, current);
        ghost var flushed := processed + Flush(current);
        if current != [] {
          processed := processed + [Join(current, " ")];
          current := [];
        } else {
          assert processed + [] == processed;
        }
        assert processed == flushed;
        processed := processed + [""];
        continue;
      }
      NonBlankStep(lines, k, processed, current);
      var cleanedLine := Strip(line);
      if cleanedLine != "" {
        current := current + [cleanedLine];
      }
    }
    assert lines[|lines|..] == [];
    if current != [] {
      processed := processed + [Join(current, " ")];
    }
    assert processed == Entries(lines, []);
    cleaned := Join(processed, "\n\n");
  }

  /** The loop of `CleanText` at a blank line: the pending paragraph and one
      empty entry are emitted. */
  lemma BlankStep(lines: seq<string>, k: nat, processed: seq<string>, current: seq<string>)
    requires k < |lines| && Strip(lines[k]) == ""
    requires processed + Entries(lines[k..], current) == Entries(lines, [])
    ensures processed + Flush(current) + [""] + Entries(lines[k + 1..], []) == Entries(lines, [])
  {
    assert lines[k..][0] == lines[k] && lines[k..][1..] == lines[k + 1..];
    Associative(processed, Flush(current), [""], Entries(lines[k + 1..], []));
  }

  /** The loop of `CleanText` at a non-blank line: the stripped line joins
      the pending paragraph. */
  lemma NonBlankStep(lines: seq<string>, k: nat, processed: seq<string>, current: seq<string>)
    requires k < |lines| && Strip(lines[k]) != ""
    requires processed + Entries(lines[k..], current) == Entries(lines, [])
    ensures processed + Entries(lines[k + 1..], current + [Strip(lines[k])]) == Entries(lines, [])
  {
    assert lines[k..][0] == lines[k] && lines[k..][1..] == lines[k + 1..];
  }

  /** Concatenation regrouped, kept generic so that the solver does not
      reason about strings while applying it. */
  lemma Associative<T>(a: seq<T>, b: seq<T>, c: seq<T>, d: seq<T>)
    ensures a + (b + c + d) == a + b + c + d
  {
  }

  /** Each line of `lines`, stripped. */
  function StripAll(lines: seq<string>): (r: seq<string>)
    ensures |r| == |lines|
  {
    seq(|lines|, i requires 0 <= i < |lines| => Strip(lines[i]))
  }

  /** A run of non-blank lines becomes one entry: its stripped lines joined
      by single spaces, in input order. */
  lemma {:induction false} EntriesOfRun(run: seq<string>, pending: seq<string>)
    requires forall i :: 0 <= i < |run| ==> Strip(run[i]) != ""
    ensures Entries(run, pending) == Flush(pending + StripAll(run))
    decreases |run|
  {
    if run == [] {
      assert pending + StripAll(run) == pending;
    } else {
      EntriesOfRun(run[1..], pending + [Strip(run[0])]);
      assert pending + [Strip(run[0])] + StripAll(run[1..]) == pending + StripAll(run);
    }
  }

  /** A blank line ends the paragraph before it and contributes exactly one
      empty entry; what follows it is cleaned independently. */
  lemma {:induction false} EntriesAtBlank(before: seq<string>, blank: string, after: seq<string>, pending: seq<string>)
    requires Strip(blank) == ""
    ensures Entries(before + [blank] + after, pending)
         == Entries(before, pending) + [""] + Entries(after, [])
    decreases |before|
  {
    var lines := before + [blank] + after;
    if before == [] {
      assert lines[1..] == after;
    } else {
      assert lines[0] == before[0] && lines[1..] == before[1..] + [blank] + after;
      if Strip(before[0]) == "" {
        EntriesAtBlank(before[1..], blank, after, []);
      } else {
        EntriesAtBlank(before[1..], blank, after, pending + [Strip(before[0])]);
      }
    }
  }

  /** Number of blank lines in `lines`. */
  function BlankCount(lines: seq<string>): nat
    decreases |lines|
  {
    if lines == [] then 0
    else (if Strip(lines[0]) == "" then 1 else 0) + BlankCount(lines[1..])
  }

  /** Joining non-empty pieces never yields the empty string. */
  lemma JoinNonEmpty(parts: seq<string>, sep: string)
    requires parts != [] && parts[0] != ""
    ensures Join(parts, sep) != ""
  {
  }

  /** The empty entries of the result are exactly the paragraph breaks: one
      per blank line. */
  lemma {:induction false} EmptyEntriesAreBlankLines(lines: seq<string>, pending: seq<string>)
    requires forall i :: 0 <= i < |pending| ==> pending[i] != ""
    ensures multiset(Entries(lines, pending))[""] == BlankCount(lines)
    decreases |lines|
  {
    if pending != [] {
      JoinNonEmpty(pending, " ");
    }
    if lines != [] {
      if Strip(lines[0]) == "" {
        EmptyEntriesAreBlankLines(lines[1..], []);
      } else {
        EmptyEntriesAreBlankLines(lines[1..], pending + [Strip(lines[0])]);
      }
    }
  }

  /** `clean_text("")` is `""`: the single empty line becomes one empty
      entry, and joining one entry adds no separator. */
  lemma CleanedEmptyText()
    ensures CleanedText("") == ""
  {
    assert Split("", '\n') == [""];
    assert Strip("") == "";
    assert Entries([""], []) == [""] + Entries([], []);
  }

  // ---------------------------------------------------------------------
  // Stored and displayed names (routes.py:116-117, 158, 259-266)
  // ---------------------------------------------------------------------

  predicate IsDigit(c: char)
  {
    '0' <= c <= '9'
  }

  /** `datetime.now().strftime("%Y%m%d_%H%M%S")` for a four-digit year:
      eight digits, an underscore, six digits. */
  predicate IsTimestamp(t: string)
  {
    |t| == 15 && t[8] == '_' && forall i :: 0 <= i < 15 && i != 8 ==> IsDigit(t[i])
  }

  /** `filename.rsplit('.', 1)[0]`: the name up to its last dot, or the whole
      name when it has none. */
  function BaseName(filename: string): (base: string)
    ensures |base| <= |filename|
    ensures '.' !in filename ==> base == filename
    ensures '.' in filename ==> |base| < |filename| && filename[..|base|] == base && filename[|base|] == '.'
                                 && '.' !in filename[|base| + 1..]
  {
    var i := LastIndexOf(filename, '.');
    if i < 0 then filename else filename[..i]
  }

  /** The name the extracted text is saved under. */
  function TextFilename(timestamp: string, filename: string): string
  {
    timestamp + "_" + BaseName(filename) + ".txt"
  }

  /** `pathlib.PurePath(name).stem`: the name without its final suffix, where
      a suffix is a last dot that neither starts nor ends the name. */
  function PathStem(name: string): (stem: string)
    ensures |stem| <= |name| && name[..|stem|] == stem
    ensures stem != name ==> 0 < |stem| < |name| - 1 && name[|stem|] == '.' && '.' !in name[|stem| + 1..]
    ensures stem == name <==> '.' !in name || name[|name| - 1] == '.' || (name[0] == '.' && '.' !in name[1..])
  {
    var i := LastIndexOf(name, '.');
    if 0 < i < |name| - 1 then name[..i] else name
  }

  /** The id a stored text file is listed and fetched under is the
      timestamp, an underscore and the uploaded name without its
      extension. */
  lemma StemOfTextFilename(timestamp: string, filename: string)
    ensures PathStem(TextFilename(timestamp, filename)) == timestamp + "_" + BaseName(filename)
  {
    var prefix := timestamp + "_" + BaseName(filename);
    var name := TextFilename(timestamp, filename);
    assert name == prefix + ".txt";
    assert name[|prefix|] == '.';
    assert LastIndexOf(name, '.') == |prefix|;
  }

  /** `"_".join(stem.split("_")[1:])`: the displayed original name. */
  function OriginalName(stem: string): string
  {
    Join(Split(stem, '_')[1..], "_")
  }

  /** The displayed name drops exactly the first `_`-separated segment. */
  lemma OriginalNameDropsFirstSegment(first: string, rest: string)
    requires '_' !in first
    ensures OriginalName(first + "_" + rest) == rest
  {
    SplitAtFirst(first, '_', rest);
    JoinSplit(rest, '_');
  }

  /** A stem without an underscore is displayed as the empty name. */
  lemma OriginalNameWithoutUnderscore(stem: string)
    requires '_' !in stem
    ensures OriginalName(stem) == ""
  {
    SplitNoSeparator(stem, '_');
  }

  /** As written, the displayed name of an upload keeps the time part of its
      timestamp, because the timestamp itself contains an underscore. */
  lemma DisplayedNameKeepsTime(timestamp: string, filename: string)
    requires IsTimestamp(timestamp)
    ensures OriginalName(PathStem(TextFilename(timestamp, filename)))
         == timestamp[9..] + "_" + BaseName(filename)
  {
    StemOfTextFilename(timestamp, filename);
    TimestampSegments(timestamp);
    var date, rest := timestamp[..8], timestamp[9..] + "_" + BaseName(filename);
    assert timestamp + "_" + BaseName(filename) == date + "_" + rest;
    OriginalNameDropsFirstSegment(date, rest);
  }

  /** A timestamp is a date and a time joined by its only underscore. */
  lemma TimestampSegments(timestamp: string)
    requires IsTimestamp(timestamp)
    ensures timestamp == timestamp[..8] + "_" + timestamp[9..]
    ensures '_' !in timestamp[..8] && '_' !in timestamp[9..]
  {
    forall i | 0 <= i < 15 && i != 8
      ensures timestamp[i] != '_'
    {
      assert IsDigit(timestamp[i]);
    }
    assert forall i :: 0 <= i < 8 ==> timestamp[..8][i] == timestamp[i];
    assert forall i :: 0 <= i < 6 ==> timestamp[9..][i] == timestamp[i + 9];
  }

  /** A concrete upload whose displayed name still carries its time. */
  lemma DisplayedNameExample(t: string, filename: string)
    requires t == "20240101_120000" && filename == "notes.pdf"
    ensures OriginalName(PathStem(TextFilename(t, filename))) == "120000_notes"
  {
    ExampleTimestamp(t);
    ExampleBaseName(filename);
    DisplayedNameKeepsTime(t, filename);
  }

  lemma ExampleTimestamp(t: string)
    requires t == "20240101_120000"
    ensures IsTimestamp(t) && t[9..] == "120000"
  {
    forall i | 0 <= i < 15 && i != 8
      ensures IsDigit(t[i])
    {
    }
  }

  lemma ExampleBaseName(filename: string)
    requires filename == "notes.pdf"
    ensures BaseName(filename) == "notes"
  {
    var i := LastIndexOf(filename, '.');
    assert filename[5] == '.' && filename[6] != '.' && filename[7] != '.' && filename[8] != '.';
    assert i == 5;
  }

  /** The displayed name as evidently intended: the stem without the whole
      timestamp, i.e. without its first two `_`-separated segments. */
  function DisplayName(stem: string): string
  {
    var parts := Split(stem, '_');
    if |parts| < 2 then "" else Join(parts[2..], "_")
  }

  /** The intended display name of a stored text file is the uploaded name
      without its extension. */
  lemma DisplayNameRoundTrip(timestamp: string, filename: string)
    requires IsTimestamp(timestamp)
    ensures DisplayName(PathStem(TextFilename(timestamp, filename))) == BaseName(filename)
  {
    StemOfTextFilename(timestamp, filename);
    TimestampSegments(timestamp);
    var date, time, base := timestamp[..8], timestamp[9..], BaseName(filename);
    assert timestamp + "_" + base == date + "_" + (time + "_" + base);
    DisplayNameDropsTwoSegments(date, time, base);
  }

  /** The intended display name drops exactly the first two segments. */
  lemma DisplayNameDropsTwoSegments(date: string, time: string, rest: string)
    requires '_' !in date && '_' !in time
    ensures DisplayName(date + "_" + (time + "_" + rest)) == rest
  {
    SplitAtFirst(date, '_', time + "_" + rest);
    SplitAtFirst(time, '_', rest);
    assert Split(date + "_" + (time + "_" + rest), '_')[2..] == Split(rest, '_');
    JoinSplit(rest, '_');
  }

  // ---------------------------------------------------------------------
  // get_combined_documents (routes.py:292-305) and get_document (275-290)
  // ---------------------------------------------------------------------

  /** An HTTP outcome: a body, or an error status. */
  datatype Response<T> = Ok(body: T) | Error(status: int)

  /** A stored `.txt` file as the glob yields it: its stem and its content,
      `None` when reading it raises. */
  datatype StoredText = StoredText(stem: string, content: Option<string>)

  /** Every stored text can be read. */
  predicate AllReadable(files: seq<StoredText>)
  {
    forall f :: f in files ==> f.content.Some?
  }

  /** The text a file contributes; only readable files ever reach the
      corpus, so the empty default is never used by a successful answer. */
  function Body(file: StoredText): string
  {
    if file.content.Some? then file.content.value else ""
  }

  /** The block one document contributes to the corpus. */
  function Section(stem: string, content: string): string
  {
    "\n\n--- Document: " + stem + " ---\n\n" + content + "\n"
  }

  /** The sections of the files, in glob order. */
  function Sections(files: seq<StoredText>): (ss: seq<string>)
    ensures |ss| == |files|
  {
    seq(|files|, k requires 0 <= k < |files| => Section(files[k].stem, Body(files[k])))
  }

  /** The corpus: the sections of all files, one after the other. */
  function Corpus(files: seq<StoredText>): string
  {
    Concat(Sections(files))
  }

  /** `get_combined_documents`: concatenates the sections of all stored
      texts, or answers 500 when one of them cannot be read. */
  method GetCombinedDocuments(files: seq<StoredText>) returns (r: Response<string>)
    ensures AllReadable(files) ==> r == Ok(Corpus(files))
    ensures !AllReadable(files) ==> r == Error(500)
  {
    var combinedText := "";
    for i := 0 to |files|
      invariant forall k :: 0 <= k < i ==> files[k].content.Some?
      invariant combinedText == Corpus(files[..i])
    {
      var file := files[i];
      if file.content.None? {
        assert file in files;
        return Error(500);
      }
      CorpusStep(files, i);
      combinedText := combinedText + Section(file.stem, file.content.value);
    }
    assert files[..|files|] == files;
    assert AllReadable(files) by {
      forall f | f in files ensures f.content.Some? {
        var k :| 0 <= k < |files| && files[k] == f;
      }
    }
    r := Ok(combinedText);
  }

  /** One more file appends its section to the corpus. */
  lemma CorpusStep(files: seq<StoredText>, i: nat)
    requires i < |files|
    ensures Corpus(files[..i + 1]) == Corpus(files[..i]) + Section(files[i].stem, Body(files[i]))
  {
    var ss := Sections(files[..i + 1]);
    assert ss[..i] == Sections(files[..i]);
  }

  /** The sections of two runs of files are those of the first followed by
      those of the second. */
  lemma SectionsAppend(first: seq<StoredText>, second: seq<StoredText>)
    ensures Sections(first + second) == Sections(first) + Sections(second)
  {
    var all := first + second;
    forall k | 0 <= k < |all|
      ensures Sections(all)[k] == (Sections(first) + Sections(second))[k]
    {
      if k >= |first| {
        assert all[k] == second[k - |first|];
      }
    }
  }

  /** The corpus of two runs of files is the corpus of the first followed by
      that of the second. */
  lemma CorpusAppend(first: seq<StoredText>, second: seq<StoredText>)
    ensures Corpus(first + second) == Corpus(first) + Corpus(second)
  {
    SectionsAppend(first, second);
    ConcatAppend(Sections(first), Sections(second));
  }

  /** Every document appears in the corpus as its own section, between the
      sections of the documents before and after it. */
  lemma CorpusAt(files: seq<StoredText>, i: nat)
    requires i < |files|
    ensures Corpus(files) == Corpus(files[..i]) + Section(files[i].stem, Body(files[i]))
                           + Corpus(files[i + 1..])
  {
    assert files == files[..i + 1] + files[i + 1..];
    CorpusAppend(files[..i + 1], files[i + 1..]);
    CorpusStep(files, i);
  }

  /** The corpus is empty exactly when there are no documents. */
  lemma CorpusEmptyIff(files: seq<StoredText>)
    ensures Corpus(files) == "" <==> files == []
  {
    if files != [] {
      var ss := Sections(files);
      assert |ss[|ss| - 1]| > 0;
    }
  }

  /** `get_document`: the content of `<document_id>.txt`. The 404 raised for
      a missing file is caught by the surrounding `except Exception`, so a
      missing document answers 500, like an unreadable one. */
  function GetDocument(documentId: string, files: map<string, Option<string>>): (r: Response<string>)
    ensures r.Ok? <==> documentId + ".txt" in files && files[documentId + ".txt"].Some?
    ensures r.Ok? ==> r.body == files[documentId + ".txt"].value
    ensures r.Error? ==> r.status == 500
  {
    var name := documentId + ".txt";
    if name !in files then Error(500)
    else match files[name]
      case None => Error(500)
      case Some(content) => Ok(content)
  }

  // ---------------------------------------------------------------------
  // create_access_token (routes.py:32-40) and login (178-206)
  // ---------------------------------------------------------------------

  /** One minute as a `timedelta`, counted in microseconds. */
  const Minute: int := 60_000_000
  const AccessTokenExpireMinutes: int := 30

  /** The claims `create_access_token` signs: the subject and the expiry. */
  datatype TokenClaims = TokenClaims(sub: string, exp: int)

  /** The expiry of a token issued at `now`: `now + expires_delta` when the
      delta is truthy (present and non-zero), otherwise fifteen minutes. */
  function ExpiresAt(now: int, expiresDelta: Option<int>): (exp: int)
    ensures expiresDelta.Some? && expiresDelta.value != 0 ==> exp == now + expiresDelta.value
    ensures expiresDelta == None || expiresDelta == Some(0) ==> exp == now + 15 * Minute
  {
    if expiresDelta.Some? && expiresDelta.value != 0 then now + expiresDelta.value
    else now + 15 * Minute
  }

  /** `create_access_token(data, expires_delta)` for the subject `sub`. */
  function CreateAccessToken(sub: string, now: int, expiresDelta: Option<int>): (t: TokenClaims)
    ensures t.sub == sub
    ensures t.exp == ExpiresAt(now, expiresDelta)
    ensures expiresDelta.Some? && expiresDelta.value != 0 ==> t.exp == now + expiresDelta.value
    ensures expiresDelta == None || expiresDelta == Some(0) ==> t.exp == now + 15 * Minute
  {
    TokenClaims(sub, ExpiresAt(now, expiresDelta))
  }

  /** A row of the users table. */
  datatype User = User(id: int, email: string, username: string, fullName: string,
                       password: string, userType: string)

  /** The user part of the login answer. */
  datatype UserInfo = UserInfo(id: int, email: string, username: string, fullName: string, userType: string)

  datatype LoginReply = LoginReply(accessToken: TokenClaims, tokenType: string, user: UserInfo)

  /** `query(...).filter(...).first()`: the index of the first row that
      matches. */
  function FindFirst<T>(rows: seq<T>, matches: T -> bool): (r: Option<nat>)
    ensures r.Some? ==> r.value < |rows| && matches(rows[r.value])
                        && forall j :: 0 <= j < r.value ==> !matches(rows[j])
    ensures r.None? <==> forall j :: 0 <= j < |rows| ==> !matches(rows[j])
    decreases |rows|
  {
    if rows == [] then None
    else if matches(rows[0]) then Some(0)
    else match FindFirst(rows[1..], matches)
      case None => None
      case Some(k) => Some(k + 1)
  }

  /** `login`: looks the user up by email and checks the password with
      `verify` (bcrypt). Both 401s are raised inside the `try` whose
      `except Exception` turns them into 500, so every failure answers
      500. */
  function Login(email: string, password: string, users: seq<User>,
                 verify: (string, string) -> bool, now: int): (r: Response<LoginReply>)
    ensures r.Ok? <==> exists i :: 0 <= i < |users| && users[i].email == email
                        && (forall j :: 0 <= j < i ==> users[j].email != email)
                        && verify(password, users[i].password)
    ensures r.Error? ==> r.status == 500
    ensures r.Ok? ==> r.body.tokenType == "bearer"
                      && r.body.accessToken == TokenClaims(email, now + AccessTokenExpireMinutes * Minute)
                      && exists i :: 0 <= i < |users| && users[i].email == email
                                     && (forall j :: 0 <= j < i ==> users[j].email != email)
                                     && r.body.user == UserInfo(users[i].id, email, users[i].username,
                                                                users[i].fullName, users[i].userType)
  {
    match FindFirst(users, (u: User) => u.email == email)
    case None => Error(500)
    case Some(i) =>
      var user := users[i];
      if !verify(password, user.password) then Error(500)
      else
        var token := CreateAccessToken(user.email, now, Some(AccessTokenExpireMinutes * Minute));
        Ok(LoginReply(token, "bearer",
                      UserInfo(user.id, user.email, user.username, user.fullName, user.userType)))
  }

  // ---------------------------------------------------------------------
  // delete_user (routes.py:369-397) and delete_feedback (420-439)
  // ---------------------------------------------------------------------

  /** A row of the feedback table. */
  datatype FeedbackRow = FeedbackRow(id: int, message: string, userId: int)

  /** The answer of a delete endpoint and the table after it. */
  datatype Deletion<T> = Deletion(response: Response<string>, table: seq<T>)

  predicate IsAdmin(user: User)
  {
    user.userType == "admin"
  }

  /** `table` without its row at `i`. */
  function RemoveAt<T>(table: seq<T>, i: nat): (r: seq<T>)
    requires i < |table|
    ensures |r| == |table| - 1
    ensures forall j :: 0 <= j < i ==> r[j] == table[j]
    ensures forall j :: i <= j < |r| ==> r[j] == table[j + 1]
  {
    table[..i] + table[i + 1..]
  }

  /** `delete_user`: a non-administrator is refused (403) before the user
      is looked up, then a missing user gives 404 and deleting oneself 400;
      only then is the row removed. */
  function DeleteUser(current: User, users: seq<User>, userId: int): (r: Deletion<User>)
    ensures r.response.Error? ==> r.table == users
    ensures r.response == Error(403) <==> !IsAdmin(current)
    ensures r.response == Error(404) <==> IsAdmin(current) && forall j :: 0 <= j < |users| ==> users[j].id != userId
    ensures r.response == Error(400) <==> IsAdmin(current) && userId == current.id
                                          && exists j :: 0 <= j < |users| && users[j].id == userId
    ensures r.response.Ok? <==> IsAdmin(current) && userId != current.id
                                && exists j :: 0 <= j < |users| && users[j].id == userId
    ensures r.response.Ok? ==> r.response.body == "User deleted successfully"
                               && exists j :: 0 <= j < |users| && users[j].id == userId
                                              && (forall k :: 0 <= k < j ==> users[k].id != userId)
                                              && r.table == RemoveAt(users, j)
  {
    if !IsAdmin(current) then Deletion(Error(403), users)
    else match FindFirst(users, (u: User) => u.id == userId)
      case None => Deletion(Error(404), users)
      case Some(i) =>
        if users[i].id == current.id then Deletion(Error(400), users)
        else Deletion(Ok("User deleted successfully"), RemoveAt(users, i))
  }

  /** `delete_feedback`: 403 for a non-administrator, then 404 for a missing
      row, then the delete; a failing commit is rolled back and answers
      500. */
  function DeleteFeedback(current: User, feedback: seq<FeedbackRow>, feedbackId: int, commitOk: bool)
    : (r: Deletion<FeedbackRow>)
    ensures r.response.Error? ==> r.table == feedback
    ensures r.response == Error(403) <==> !IsAdmin(current)
    ensures r.response == Error(404) <==> IsAdmin(current) && forall j :: 0 <= j < |feedback| ==> feedback[j].id != feedbackId
    ensures r.response == Error(500) <==> IsAdmin(current) && !commitOk
                                          && exists j :: 0 <= j < |feedback| && feedback[j].id == feedbackId
    ensures r.response.Ok? <==> IsAdmin(current) && commitOk
                                && exists j :: 0 <= j < |feedback| && feedback[j].id == feedbackId
    ensures r.response.Ok? ==> r.response.body == "Feedback deleted successfully"
                               && exists j :: 0 <= j < |feedback| && feedback[j].id == feedbackId
                                              && (forall k :: 0 <= k < j ==> feedback[k].id != feedbackId)
                                              && r.table == RemoveAt(feedback, j)
  {
    if !IsAdmin(current) then Deletion(Error(403), feedback)
    else match FindFirst(feedback, (f: FeedbackRow) => f.id == feedbackId)
      case None => Deletion(Error(404), feedback)
      case Some(i) =>
        if !commitOk then Deletion(Error(500), feedback)
        else Deletion(Ok("Feedback deleted successfully"), RemoveAt(feedback, i))
  }
}
