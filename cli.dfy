/**
 * The command-line tool (`time_server.py`): the persisted privilege state
 * (`CORE_MODE`, `AUTHORIZED_MODE`, `USER`), the prompts and answer parsers
 * that guard it, and one method per command. Standard input is the sequence
 * of lines not yet read, and the state file is its decoded contents.
 */
module CommandLine {
  import opened Wrappers
  import opened PyText
  import opened Dynamic
  import opened TimeServerClient

  /* ---------------------------------------------------------------------- */
  /* Answer parsers                                                          */
  /* ---------------------------------------------------------------------- */

  /**
   * The number an answer to a numeric question denotes: surrounding
   * whitespace trimmed, underscores dropped, one optional `+` or `-`, then
   * decimal digits. `None` when what is left after the sign is empty or holds
   * anything but digits.
   */
  function AnswerValue(text: string): (r: Option<int>)
    ensures r.Some? ==> |Strip(text)| >= 1
    ensures var t := RemoveAll(Strip(text), '_');
      r.None? <==> !IsDigits(if |t| >= 1 && (t[0] == '+' || t[0] == '-') then t[1..] else t)
  {
    var t := RemoveAll(Strip(text), '_');
    var negative := |t| >= 1 && t[0] == '-';
    var digits := if |t| >= 1 && (t[0] == '+' || t[0] == '-') then t[1..] else t;
    if IsDigits(digits) then Some(Signed(negative, ValueOf(digits, 10))) else None
  }

  /** `compare_input_to_int`: `None` for `(False, None)`, else the sign of the answer's value minus `ref`. */
  function CompareInputToInt(text: string, ref: int): (r: Option<int>)
    ensures r.None? <==> AnswerValue(text).None?
    ensures r.Some? ==> -1 <= r.value <= 1
    ensures r.Some? ==> (r.value == 0 <==> AnswerValue(text).value == ref)
    ensures r.Some? ==> (r.value < 0 <==> AnswerValue(text).value < ref)
  {
    match AnswerValue(text)
    case None => None
    case Some(v) => Some(if v == ref then 0 else if v < ref then -1 else 1)
  }

  /** An answer matches `ref` when it denotes that very number (`input_equals_int`, given the line read). */
  predicate AnswerMatches(text: string, ref: int) {
    CompareInputToInt(text, ref) == Some(0)
  }

  /** Every number typed the way `str()` writes it is read as that number. */
  lemma AnswerReadsDecimal(n: int)
    ensures AnswerValue(Decimal(n)) == Some(n)
    ensures AnswerMatches(Decimal(n), n)
  {
    var s := Decimal(n);
    var d := NatDigits(if n < 0 then -n else n, 10);
    DecimalStripped(n);
    DecimalDigitsAreDigits(d);
    DigitsHaveNo(d, '_');
    assert '_' !in s;
    if n >= 0 {
      assert s == d;
      assert !(d[0] == '+' || d[0] == '-') by {
        assert IsDecimalDigit(d[0]);
      }
    } else {
      assert s == "-" + d && s[1..] == d;
    }
  }

  /** Leading zeros are accepted: `007` answers 7, whatever number of zeros leads. */
  lemma AnswerLeadingZeros(d: string, k: nat)
    requires IsDigits(d)
    ensures AnswerValue(seq(k, _ => '0') + d) == AnswerValue(d) == Some(ValueOf(d, 10))
  {
    var t := seq(k, _ => '0') + d;
    forall i | 0 <= i < |d| ensures DigitValue(d[i]) < 10 {
      assert IsDecimalDigit(d[i]);
    }
    LeadingZeros(d, k, 10);
    DecimalDigitsAreDigits(t);
    AnswerDigits(t);
    AnswerDigits(d);
  }

  /** A plain run of decimal digits answers its value. */
  lemma AnswerDigits(d: string)
    requires IsDigits(d)
    ensures AnswerValue(d) == Some(ValueOf(d, 10))
  {
    assert IsDecimalDigit(d[0]) && IsDecimalDigit(d[|d| - 1]);
    StripUnchanged(d);
    DigitsHaveNo(d, '_');
  }

  /** Underscores are dropped before parsing: an answer reads the same with one more `_` inside it. */
  lemma AnswerIgnoresUnderscores(a: string, b: string)
    requires a != [] && b != [] && !IsSpace(a[0]) && !IsSpace(b[|b| - 1])
    ensures AnswerValue(a + ['_'] + b) == AnswerValue(a + b)
  {
    var s, u := a + b, a + ['_'] + b;
    assert s[0] == a[0] && s[|s| - 1] == b[|b| - 1];
    assert u[0] == a[0] && u[|u| - 1] == b[|b| - 1];
    StripUnchanged(s);
    StripUnchanged(u);
    RemoveOne(a, b, '_');
    SameCleanedAnswer(u, s);
  }

  /** The answer depends only on the trimmed text with its underscores dropped. */
  lemma SameCleanedAnswer(x: string, y: string)
    requires RemoveAll(Strip(x), '_') == RemoveAll(Strip(y), '_')
    ensures AnswerValue(x) == AnswerValue(y)
  {
  }

  /** One leading sign is accepted: `+` before a digit run reads its value, `-` its negation. */
  lemma AnswerSigned(sign: char, d: string)
    requires IsDigits(d) && (sign == '+' || sign == '-')
    ensures AnswerValue([sign] + d) == Some(Signed(sign == '-', ValueOf(d, 10)))
  {
    DigitsHaveNo(d, '_');
    var t := [sign] + d;
    assert t[0] == sign && t[1..] == d && t[|t| - 1] == d[|d| - 1];
    assert '_' !in t;
    StripUnchanged(t);
    assert RemoveAll(Strip(t), '_') == t;
  }

  /** An empty answer is no answer. */
  lemma AnswerRejectsEmpty()
    ensures AnswerValue("") == None
  {
    StripUnchanged("");
  }

  /** A bare sign is no answer. */
  lemma AnswerRejectsSign()
    ensures AnswerValue("-") == None
  {
    var t := "-";
    assert t[0] == '-' && t[1..] == [];
    StripUnchanged(t);
    assert '_' !in t;
  }

  /** A number with a letter after it is no answer. */
  lemma AnswerRejectsLetter()
    ensures AnswerValue("7a") == None
  {
    var t := "7a";
    StripUnchanged(t);
    assert '_' !in t;
    assert !(t[0] == '+' || t[0] == '-');
    assert !IsDecimalDigit(t[1]);
  }

  /** `_yes_no` given the line read, `None` at the end of input: only `y` or `yes`, trimmed and in any case. */
  predicate YesNo(line: Option<string>): (r: bool)
    ensures r ==> line.Some? && 1 <= |Strip(line.value)| <= 3
  {
    line.Some? && Lower(Strip(line.value)) in ["y", "yes"]
  }

  /** A prompt is accepted exactly when the trimmed answer spells `y` or `yes`; the end of input declines. */
  lemma YesNoMeaning(line: Option<string>)
    ensures YesNo(line) <==> line.Some? && (SpelledAs(Strip(line.value), "y") || SpelledAs(Strip(line.value), "yes"))
  {
    if line.Some? {
      var t := Strip(line.value);
      LowerIsWord(t, "y");
      LowerIsWord(t, "yes");
    }
  }

  /** An empty line and `no` decline. */
  lemma YesNoDeclines()
    ensures !YesNo(Some("")) && !YesNo(Some("no"))
  {
    assert Strip("") == "" && Lower("") == "";
    StripUnchanged("no");
    assert |Lower("no")| == 2;
  }

  /** The text, trimmed, spells one of `words` in any case. */
  predicate SpelledOneOf(t: string, words: seq<string>) {
    exists k :: 0 <= k < |words| && SpelledAs(t, words[k])
  }

  /** Membership of the lower-cased text among lower-case words is spelling one of them in any case. */
  lemma LowerAmong(t: string, words: seq<string>)
    requires forall k :: 0 <= k < |words| ==> NoUpper(words[k])
    ensures Lower(t) in words <==> SpelledOneOf(t, words)
  {
    forall k | 0 <= k < |words| ensures Lower(t) == words[k] <==> SpelledAs(t, words[k]) {
      LowerIsWord(t, words[k]);
    }
  }

  const TrueSpellings: seq<string> := ["1", "true", "t", "yes", "y", "on"]
  const FalseSpellings: seq<string> := ["0", "false", "f", "no", "n", "off"]

  /** `_parse_bool`: `None` where it raises `ArgumentTypeError`. */
  function ParseBool(s: string): (r: Option<bool>)
    ensures r.Some? ==> 1 <= |Strip(s)| <= 5
  {
    var v := Lower(Strip(s));
    if v in TrueSpellings then Some(true)
    else if v in FalseSpellings then Some(false)
    else None
  }

  /**
   * `_parse_bool` reads true exactly the spellings of 1/true/t/yes/y/on, false
   * exactly those of 0/false/f/no/n/off (in any case, trimmed), and rejects
   * every other text; no text is both.
   */
  lemma ParseBoolMeaning(s: string)
    ensures ParseBool(s) == Some(true) <==> SpelledOneOf(Strip(s), TrueSpellings)
    ensures ParseBool(s) == Some(false) <==> SpelledOneOf(Strip(s), FalseSpellings)
    ensures ParseBool(s).None? <==> !SpelledOneOf(Strip(s), TrueSpellings) && !SpelledOneOf(Strip(s), FalseSpellings)
  {
    var v := Lower(Strip(s));
    SpellingsLower();
    LowerAmong(Strip(s), TrueSpellings);
    LowerAmong(Strip(s), FalseSpellings);
    SpellingsDisjoint();
    assert v in FalseSpellings ==> v !in TrueSpellings;
  }

  lemma SpellingsLower()
    ensures forall k :: 0 <= k < |TrueSpellings| ==> NoUpper(TrueSpellings[k])
    ensures forall k :: 0 <= k < |FalseSpellings| ==> NoUpper(FalseSpellings[k])
  {
    assert NoUpper(TrueSpellings[0]) && NoUpper(TrueSpellings[1]) && NoUpper(TrueSpellings[2]);
    assert NoUpper(TrueSpellings[3]) && NoUpper(TrueSpellings[4]) && NoUpper(TrueSpellings[5]);
    assert NoUpper(FalseSpellings[0]) && NoUpper(FalseSpellings[1]) && NoUpper(FalseSpellings[2]);
    assert NoUpper(FalseSpellings[3]) && NoUpper(FalseSpellings[4]) && NoUpper(FalseSpellings[5]);
  }

  lemma SpellingsDisjoint()
    ensures forall i, j :: 0 <= i < |TrueSpellings| && 0 <= j < |FalseSpellings| ==> TrueSpellings[i] != FalseSpellings[j]
  {
    forall i, j | 0 <= i < |TrueSpellings| && 0 <= j < |FalseSpellings|
      ensures TrueSpellings[i] != FalseSpellings[j]
    {
      var a, b := TrueSpellings[i], FalseSpellings[j];
      if |a| == |b| {
        assert a[0] != b[0];
      }
    }
  }

  /** The state `set_active` sends is a spelling `_parse_bool` reads as that state. */
  lemma ParseBoolReadsFlag(b: bool)
    ensures ParseBool(if b then "True" else "False") == Some(b)
  {
    if b {
      ReadsTrue();
    } else {
      ReadsFalse();
    }
  }

  lemma ReadsTrue()
    ensures ParseBool("True") == Some(true)
  {
    var t := "True";
    StripUnchanged(t);
    assert Lower(t) == "true" == TrueSpellings[1];
  }

  lemma ReadsFalse()
    ensures ParseBool("False") == Some(false)
  {
    var t := "False";
    StripUnchanged(t);
    assert Lower(t) == "false" == FalseSpellings[1];
    assert forall k :: 0 <= k < |TrueSpellings| ==> |TrueSpellings[k]| != 5;
  }

  /* ---------------------------------------------------------------------- */
  /* _print_table                                                            */
  /* ---------------------------------------------------------------------- */

  /**
   * The column widths of `_print_table`: per column, the longest of the
   * header and the cells below it (cell texts as `str()` writes them).
   */
  method ColumnWidths(headers: seq<string>, rows: seq<seq<string>>) returns (widths: seq<nat>)
    requires forall r :: 0 <= r < |rows| ==> |rows[r]| >= |headers|
    ensures |widths| == |headers|
    ensures forall i :: 0 <= i < |headers| ==>
      widths[i] >= |headers[i]| && forall r :: 0 <= r < |rows| ==> widths[i] >= |rows[r][i]|
    ensures forall i :: 0 <= i < |headers| ==>
      widths[i] == |headers[i]| || exists r :: 0 <= r < |rows| && widths[i] == |rows[r][i]|
  {
    var cols := |headers|;
    widths := seq(cols, i requires 0 <= i < cols => |headers[i]|);
    var r := 0;
    while r < |rows|
      invariant 0 <= r <= |rows| && |widths| == cols
      invariant forall i :: 0 <= i < cols ==>
        widths[i] >= |headers[i]| && forall q :: 0 <= q < r ==> widths[i] >= |rows[q][i]|
      invariant forall i :: 0 <= i < cols ==>
        widths[i] == |headers[i]| || exists q :: 0 <= q < r && widths[i] == |rows[q][i]|
    {
      var i := 0;
      while i < cols
        invariant 0 <= i <= cols && |widths| == cols
        invariant forall j :: 0 <= j < cols ==>
          widths[j] >= |headers[j]| && forall q :: 0 <= q < r ==> widths[j] >= |rows[q][j]|
        invariant forall j :: 0 <= j < i ==> widths[j] >= |rows[r][j]|
        invariant forall j :: 0 <= j < cols ==>
          widths[j] == |headers[j]| || exists q :: 0 <= q < r + 1 && widths[j] == |rows[q][j]|
      {
        if |rows[r][i]| > widths[i] {
          widths := widths[i := |rows[r][i]|];
        }
        i := i + 1;
      }
      r := r + 1;
    }
  }

  /** The rows `for r in rows` walks: a list's items, a dict's keys, a text's characters; `None` when not iterable. */
  function TableRows(data: Json): Option<seq<Json>> {
    match data
    case Arr(items) => Some(items)
    case Obj(fields) => Some(seq(|fields|, k requires 0 <= k < |fields| => Str(fields[k].0)))
    case Str(s) => Some(seq(|s|, k requires 0 <= k < |s| => Str([s[k]])))
    case _ => None
  }

  /** `r[i]` works for every column: a list or a text long enough (a dict has no integer keys, a scalar no items). */
  predicate RowFits(row: Json, cols: nat) {
    match row
    case Arr(items) => |items| >= cols
    case Str(s) => |s| >= cols
    case _ => cols == 0
  }

  /** The cell texts `str(r[i])` of a fitting row. */
  function CellTexts(row: Json, cols: nat): (cells: seq<string>)
    requires RowFits(row, cols)
    ensures |cells| == cols
  {
    match row
    case Arr(items) => seq(cols, i requires 0 <= i < cols => PyStr(items[i]))
    case Str(s) => seq(cols, i requires 0 <= i < cols => [s[i]])
    case _ => []
  }

  /** `_print_table` succeeds exactly when the data is iterable and every row fits the header. */
  predicate TablePrints(data: Json, cols: nat) {
    TableRows(data).Some? && forall k :: 0 <= k < |TableRows(data).value| ==> RowFits(TableRows(data).value[k], cols)
  }

  /** The outcome of a table command given the server's answer: 1 on the failure marker, else whether the table prints. */
  function TableOutcome(data: Json, cols: nat): Outcome {
    if data == FailureMarker then Exit(1) else if TablePrints(data, cols) then Exit(0) else Raised(NotATable)
  }

  /** The outcome of `cmd_list_user_times`: every item becomes a row, so only data that cannot be iterated raises. */
  function TimesOutcome(data: Json): Outcome {
    if data == FailureMarker then Exit(1) else if TableRows(data).Some? then Exit(0) else Raised(NotATable)
  }

  /** `return 0 if ok else 1`. */
  function ExitIf(ok: bool): Outcome {
    if ok then Exit(0) else Exit(1)
  }

  /* ---------------------------------------------------------------------- */
  /* Persisted state                                                         */
  /* ---------------------------------------------------------------------- */

  /** The three persisted module globals. */
  datatype Session = Session(coreMode: bool, authorizedMode: bool, user: Option<string>)

  const Defaults := Session(false, false, None)

  /** The state file: absent, unreadable or not JSON, or holding a decoded value. */
  datatype StateFile = Missing | Unreadable | Stored(contents: Json)

  /** `obj.get(key, default)`. */
  function GetOr(fields: seq<(string, Json)>, key: string, default: Json): Json {
    match Get(fields, key)
    case Some(v) => v
    case None => default
  }

  function UserJson(user: Option<string>): Json {
    match user
    case None => Null
    case Some(u) => Str(u)
  }

  /**
   * `_load_state`: the session after reading the file over `cur`. A missing or
   * unreadable file, or a value that is no object (whose `get` raises), leaves
   * `cur` as it is; otherwise each present field replaces the current value,
   * the flags by truthiness and a non-null user by its `str()`.
   */
  function LoadedSession(cur: Session, file: StateFile): (s: Session)
    ensures !(file.Stored? && file.contents.Obj?) ==> s == cur
  {
    if file.Stored? && file.contents.Obj? then
      var f := file.contents.fields;
      var user := GetOr(f, "USER", UserJson(cur.user));
      Session(
        Truthy(GetOr(f, "CORE_MODE", Bool(cur.coreMode))),
        Truthy(GetOr(f, "AUTHORIZED_MODE", Bool(cur.authorizedMode))),
        if user == Null then None else Some(PyStr(user)))
    else cur
  }

  /** The record `_save_state` writes. */
  function SavedRecord(s: Session): Json {
    Obj([("CORE_MODE", Bool(s.coreMode)), ("AUTHORIZED_MODE", Bool(s.authorizedMode)), ("USER", UserJson(s.user))])
  }

  /** Each field of the saved record holds the session's value. */
  lemma SavedFields(s: Session)
    ensures var f := SavedRecord(s).fields;
      && Get(f, "CORE_MODE") == Some(Bool(s.coreMode))
      && Get(f, "AUTHORIZED_MODE") == Some(Bool(s.authorizedMode))
      && Get(f, "USER") == Some(UserJson(s.user))
  {
    var f := SavedRecord(s).fields;
    var c, a, u := Bool(s.coreMode), Bool(s.authorizedMode), UserJson(s.user);
    assert |"CORE_MODE"| == 9 && |"AUTHORIZED_MODE"| == 15 && |"USER"| == 4;
    assert f[1..] == [("AUTHORIZED_MODE", a), ("USER", u)] && f[2..] == [("USER", u)];
    assert Get(f[1..], "AUTHORIZED_MODE") == Some(a);
    assert Get(f[2..], "USER") == Some(u);
    assert Get(f[1..], "USER") == Some(u);
  }

  /** Loading what was saved restores the saved session, whatever the session before the load. */
  lemma LoadSaveRoundTrip(s: Session, cur: Session)
    ensures LoadedSession(cur, Stored(SavedRecord(s))) == s
  {
    SavedFields(s);
  }

  /** A file that names none of the fields keeps the session as it is. */
  lemma LoadWithoutFields(cur: Session, fields: seq<(string, Json)>)
    requires !HasKey(fields, "CORE_MODE") && !HasKey(fields, "AUTHORIZED_MODE") && !HasKey(fields, "USER")
    ensures LoadedSession(cur, Stored(Obj(fields))) == cur
  {
  }

  /* ---------------------------------------------------------------------- */
  /* Commands                                                                */
  /* ---------------------------------------------------------------------- */

  /** What became of a run: an exit code, or an exception that escaped. */
  datatype Outcome = Exit(code: int) | Raised(error: Failure)

  datatype Failure =
    | EndOfInput        // `input()` met the end of standard input (EOFError)
    | InvalidNumber     // `int()` of a command-line argument (ValueError)
    | InvalidBoolean    // `_parse_bool` (ArgumentTypeError)
    | NotATable         // `_print_table` or the row loop over data that does not fit (TypeError, KeyError, IndexError)

  /** One option of the mutually exclusive group, with its arguments as typed. */
  datatype Command =
    | GetActiveCmd
    | ListUserTimesCmd
    | ListUsersCmd
    | ListCategoriesCmd
    | GetLogsCmd
    | GetAllocatedTimeCmd
    | ApplyUserOffsetCmd(userId: string, offset: string)
    | ApplyUserCatCmd(catId: string, offset: string)
    | SetCoreModeCmd
    | AuthorizeCmd
    | SetUserCmd(name: string)
    | SetActiveCmd(state: string)
    | SplitAllocatedTimeCmd

  /** The options that only query or adjust the server, with no prompt and no change to the session. */
  predicate IsQuery(cmd: Command) {
    !(cmd.SetCoreModeCmd? || cmd.AuthorizeCmd? || cmd.SetUserCmd? || cmd.SetActiveCmd? || cmd.SplitAllocatedTimeCmd?)
  }

  /** The `k`-th line still to be read, `None` past the end. */
  function LineAt(input: seq<string>, k: nat): Option<string> {
    if k < |input| then Some(input[k]) else None
  }

  /** How many users `cmd_set_user` expects as the answer: one more than listed, 0 for no list. */
  function ExpectedUserCount(users: Json): nat {
    if users.Arr? || users.Obj? then Length(users) + 1 else 0
  }

  /* ---------------------------------------------------------------------- */
  /* What one command does                                                   */
  /* ---------------------------------------------------------------------- */

  /** The server as the client sees it: the answer to a request, given the requests sent before it. */
  type Server = (seq<Request>, Request) -> Json

  /**
   * What a command leaves behind: its outcome, the session, whether the state
   * file was written, the requests it sent (in order) and how many input
   * lines it asked for.
   */
  datatype Run = Run(st: Outcome, session: Session, saved: bool, requests: seq<Request>, linesRead: nat)

  /** The state file after saving `s` over `prev`: a failed write (`canSave` false) leaves `prev`. */
  function SavedFile(canSave: bool, prev: StateFile, s: Session): StateFile {
    if canSave then Stored(SavedRecord(s)) else prev
  }

  /** A command that sends one request and prompts for nothing. */
  function Asked(s: Session, req: Request, st: Outcome): Run {
    Run(st, s, false, [req], 0)
  }

  /** A command that stops after `lines` prompts, with no request sent and nothing changed. */
  function Stopped(s: Session, lines: nat, st: Outcome): Run {
    Run(st, s, false, [], lines)
  }

  /** `--apply_user_offset` (`forUser`) and `--apply_user_cat`: both arguments through `int()`, then one offset request. */
  function OffsetRun(s: Session, id: string, offset: string, forUser: bool, sent: seq<Request>, remote: Server): Run {
    var i, o := PyInt(id, 10), PyInt(offset, 10);
    if i.None? || o.None? then Stopped(s, 0, Raised(InvalidNumber))
    else
      var req := if forUser then OffsetUserRequest(i.value, o.value) else OffsetCategoryRequest(i.value, o.value);
      Asked(s, req, ExitIf(remote(sent, req) != FailureMarker))
  }

  /** The commands that only query or adjust the server, from session `s` with `sent` already sent. */
  function QueryRun(cmd: Command, s: Session, sent: seq<Request>, remote: Server): Run
    requires IsQuery(cmd)
  {
    match cmd
    case GetActiveCmd => Asked(s, GetActive, Exit(0))
    case ListUserTimesCmd => Asked(s, ShowTimes, TimesOutcome(remote(sent, ShowTimes)))
    case ListUsersCmd => Asked(s, ListUsersRequest, TableOutcome(remote(sent, ListUsersRequest), 7))
    case ListCategoriesCmd => Asked(s, ListCategoriesRequest, TableOutcome(remote(sent, ListCategoriesRequest), 2))
    case GetLogsCmd => Asked(s, GetLogs, TableOutcome(remote(sent, GetLogs), 5))
    case GetAllocatedTimeCmd => Asked(s, GetAllocatedTime, Exit(0))
    case ApplyUserOffsetCmd(uid, off) => OffsetRun(s, uid, off, true, sent, remote)
    case ApplyUserCatCmd(cid, off) => OffsetRun(s, cid, off, false, sent, remote)
  }

  /** `cmd_set_core_mode` from session `s`, reading standard input `input` from line `at` on. */
  function CoreModeRun(s: Session, input: seq<string>, at: nat, sent: seq<Request>, remote: Server): Run {
    if !YesNo(LineAt(input, at)) then Stopped(s, 1, Exit(2))
    else if !YesNo(LineAt(input, at + 1)) then Stopped(s, 2, Exit(2))
    else After(2, AllocationCheckRun(s, input, at + 2, sent, remote))
  }

  /** The run `r` after `lines` lines already read. */
  function After(lines: nat, r: Run): Run {
    r.(linesRead := lines + r.linesRead)
  }

  /** The end of `cmd_set_core_mode`, once both consents are given: the allocation is requested and must be typed back. */
  function AllocationCheckRun(s: Session, input: seq<string>, at: nat, sent: seq<Request>, remote: Server): Run {
    if |input| < at + 1 then Run(Raised(EndOfInput), s, false, [GetAllocatedTime], 1)
    else if AnswerMatches(input[at], AllocationFrom(remote(sent, GetAllocatedTime))) then
      Run(Exit(0), s.(coreMode := true), true, [GetAllocatedTime], 1)
    else Run(Exit(2), s, false, [GetAllocatedTime], 1)
  }

  /** `cmd_authorize` from session `s`; it sends no request. */
  function AuthorizeRun(s: Session, input: seq<string>, at: nat, unlockCode: string): Run {
    if !YesNo(LineAt(input, at)) || !s.coreMode || s.user.None? then Stopped(s, 1, Exit(2))
    else if |input| < at + 2 then Stopped(s, 2, Raised(EndOfInput))
    else if input[at + 1] == unlockCode then Run(Exit(0), s.(authorizedMode := true), true, [], 2)
    else Stopped(s, 2, Exit(2))
  }

  /** `cmd_set_user` from session `s`. */
  function UserRun(s: Session, name: string, input: seq<string>, at: nat, sent: seq<Request>, remote: Server, unlockUser: Option<string>): Run {
    if !YesNo(LineAt(input, at)) then Stopped(s, 1, Exit(2))
    else After(1, UserCheckRun(s, name, input, at + 1, sent, remote, unlockUser))
  }

  /** The end of `cmd_set_user`, once consent is given: the users are listed and their count plus one must be typed back. */
  function UserCheckRun(s: Session, name: string, input: seq<string>, at: nat, sent: seq<Request>, remote: Server, unlockUser: Option<string>): Run {
    if |input| < at + 1 then Run(Raised(EndOfInput), s, false, [ShowTimes], 1)
    else if AnswerMatches(input[at], ExpectedUserCount(remote(sent, ShowTimes))) && (unlockUser.None? || name == unlockUser.value) then
      Run(Exit(0), s.(user := Some(name)), true, [ShowTimes], 1)
    else Run(Exit(2), s, false, [ShowTimes], 1)
  }

  /** `cmd_set_active` from session `s`. */
  function SetActiveRun(s: Session, state: bool, input: seq<string>, at: nat, sent: seq<Request>, remote: Server): Run {
    if !s.authorizedMode then Stopped(s, 0, Exit(2))
    else if !YesNo(LineAt(input, at)) then Stopped(s, 1, Exit(2))
    else if !YesNo(LineAt(input, at + 1)) then Stopped(s, 2, Exit(2))
    else if !YesNo(LineAt(input, at + 2)) then Stopped(s, 3, Exit(2))
    else Run(ExitIf(OutcomeFrom(remote(sent, SetActiveRequest(state)))), s, false, [SetActiveRequest(state)], 3)
  }

  /** `--set_active`: `_parse_bool` of the argument, and then `cmd_set_active`. */
  function SetActiveArgRun(s: Session, text: string, input: seq<string>, at: nat, sent: seq<Request>, remote: Server): Run {
    match ParseBool(text)
    case None => Stopped(s, 0, Raised(InvalidBoolean))
    case Some(state) => SetActiveRun(s, state, input, at, sent, remote)
  }

  /** `cmd_split_allocated_time` from session `s`. */
  function SplitRun(s: Session, input: seq<string>, at: nat, sent: seq<Request>, remote: Server): Run {
    if !s.authorizedMode then Stopped(s, 0, Exit(2))
    else if !YesNo(LineAt(input, at)) then Stopped(s, 1, Exit(2))
    else
      var users := remote(sent, ShowTimes);
      var listed := sent + [ShowTimes];
      if Length(users) == 0 then Run(Exit(1), s, false, [ShowTimes], 1)
      else
        var share := Share(AllocationFrom(remote(listed, GetAllocatedTime)), Length(users));
        var last := OffsetCategoryRequest(0, share);
        Run(ExitIf(remote(listed + [GetAllocatedTime], last) != FailureMarker), s, false, [ShowTimes, GetAllocatedTime, last], 1)
  }

  /** The query commands prompt for nothing and leave the session and the state file alone; each sends at most one request. */
  lemma QueryRunsKeepSession(cmd: Command, s: Session, sent: seq<Request>, remote: Server)
    requires IsQuery(cmd)
    ensures var r := QueryRun(cmd, s, sent, remote);
      r.session == s && !r.saved && r.linesRead == 0 && |r.requests| <= 1
  {
  }

  /**
   * Arguments typed the way `str()` writes numbers reach the server as those
   * numbers: `--apply_user_offset 3 5` sends the user offset request (3, 5),
   * and the exit code is 0 iff the exchange did not fail.
   */
  lemma UserOffsetArguments(id: int, offset: int, s: Session, sent: seq<Request>, remote: Server)
    ensures var r := OffsetRun(s, Decimal(id), Decimal(offset), true, sent, remote);
      r.requests == [OffsetUserRequest(id, offset)]
      && (r.st == Exit(0) <==> remote(sent, OffsetUserRequest(id, offset)) != FailureMarker)
  {
    DecimalRoundTrip(id);
    DecimalRoundTrip(offset);
  }

  /** Likewise `--apply_user_cat 3 5` sends the category offset request (3, 5). */
  lemma CategoryOffsetArguments(id: int, offset: int, s: Session, sent: seq<Request>, remote: Server)
    ensures var r := OffsetRun(s, Decimal(id), Decimal(offset), false, sent, remote);
      r.requests == [OffsetCategoryRequest(id, offset)]
      && (r.st == Exit(0) <==> remote(sent, OffsetCategoryRequest(id, offset)) != FailureMarker)
  {
    DecimalRoundTrip(id);
    DecimalRoundTrip(offset);
  }

  /**
   * set_core_mode only raises CORE_MODE, and only after two consents and the
   * allocated total typed back; it asks for the total only after both
   * consents. A declined prompt or a wrong total exits 2 and changes nothing.
   * The session changes and the file is written exactly when it succeeds.
   */
  lemma CoreModeGate(s: Session, input: seq<string>, at: nat, sent: seq<Request>, remote: Server)
    ensures var r := CoreModeRun(s, input, at, sent, remote);
      && (r.st == Exit(0) ==> r.session == s.(coreMode := true))
      && (r.st != Exit(0) ==> r.session == s)
      && (r.saved <==> r.st == Exit(0))
      && (!YesNo(LineAt(input, at)) || !YesNo(LineAt(input, at + 1)) ==> r.st == Exit(2))
      && (|input| >= at + 3 && r.st != Exit(0) ==> r.st == Exit(2))
      && (r.st == Exit(0) <==>
            YesNo(LineAt(input, at)) && YesNo(LineAt(input, at + 1)) && |input| >= at + 3
            && AnswerMatches(input[at + 2], AllocationFrom(remote(sent, GetAllocatedTime))))
      && (r.requests != [] <==> YesNo(LineAt(input, at)) && YesNo(LineAt(input, at + 1)))
  {
  }

  /**
   * authorize only raises AUTHORIZED_MODE, and only from CORE_MODE with a
   * user, after consent, with the unlock code typed as the password. It never
   * sends a request. Every refusal, and a wrong password, exits 2 and changes
   * nothing; the session changes and the file is written exactly when it
   * succeeds.
   */
  lemma AuthorizeGate(s: Session, input: seq<string>, at: nat, unlockCode: string)
    ensures var r := AuthorizeRun(s, input, at, unlockCode);
      && r.requests == []
      && (r.st == Exit(0) ==> r.session == s.(authorizedMode := true))
      && (r.st != Exit(0) ==> r.session == s)
      && (r.saved <==> r.st == Exit(0))
      && (!YesNo(LineAt(input, at)) || !s.coreMode || s.user.None? ==> r.st == Exit(2) && r.linesRead == 1)
      && (|input| >= at + 2 && r.st != Exit(0) ==> r.st == Exit(2))
      && (r.st == Exit(0) <==>
            YesNo(LineAt(input, at)) && s.coreMode && s.user.Some? && LineAt(input, at + 1) == Some(unlockCode))
  {
  }

  /**
   * set_user only ever sets USER to the given name, after consent, with the
   * listed user count plus one typed back and the name the configured one (if
   * any). CORE_MODE is not required. A declined prompt, a wrong count or
   * another name exits 2 and changes nothing; the session changes and the
   * file is written exactly when it succeeds.
   */
  lemma UserGate(s: Session, name: string, input: seq<string>, at: nat, sent: seq<Request>, remote: Server, unlockUser: Option<string>)
    ensures var r := UserRun(s, name, input, at, sent, remote, unlockUser);
      && (r.st == Exit(0) ==> r.session == s.(user := Some(name)))
      && (r.st != Exit(0) ==> r.session == s)
      && (r.saved <==> r.st == Exit(0))
      && (!YesNo(LineAt(input, at)) ==> r.st == Exit(2))
      && (|input| >= at + 2 && r.st != Exit(0) ==> r.st == Exit(2))
      && (r.st == Exit(0) <==>
            YesNo(LineAt(input, at)) && |input| >= at + 2
            && AnswerMatches(input[at + 1], ExpectedUserCount(remote(sent, ShowTimes)))
            && (unlockUser.None? || name == unlockUser.value))
      && (r.requests != [] <==> YesNo(LineAt(input, at)))
  {
  }

  /**
   * set_active changes no privilege and writes no file. Without
   * AUTHORIZED_MODE it reads nothing and sends nothing; the one `set_active`
   * request goes out only after three consents. Without it the exit code is
   * 2; with it, 0 when the server's answer reads as success and 1 otherwise.
   */
  lemma SetActiveGate(s: Session, state: bool, input: seq<string>, at: nat, sent: seq<Request>, remote: Server)
    ensures var r := SetActiveRun(s, state, input, at, sent, remote);
      && r.session == s && !r.saved
      && (!s.authorizedMode ==> r.st == Exit(2) && r.requests == [] && r.linesRead == 0)
      && (r.requests != [] <==>
            s.authorizedMode && YesNo(LineAt(input, at)) && YesNo(LineAt(input, at + 1)) && YesNo(LineAt(input, at + 2)))
      && (r.requests != [] ==> r.requests == [SetActiveRequest(state)])
      && (r.requests == [] ==> r.st == Exit(2))
      && (r.requests != [] ==> r.st == ExitIf(OutcomeFrom(remote(sent, SetActiveRequest(state)))))
  {
  }

  /** An invalid boolean stops `--set_active` before any prompt or request. */
  lemma SetActiveArgGate(s: Session, text: string, input: seq<string>, at: nat, sent: seq<Request>, remote: Server)
    ensures var r := SetActiveArgRun(s, text, input, at, sent, remote);
      ParseBool(text).None? ==> r.st == Raised(InvalidBoolean) && r.requests == [] && r.linesRead == 0 && r.session == s
  {
  }

  /**
   * `--set_active True` and `--set_active False` run `cmd_set_active` for the
   * state they name.
   */
  lemma SetActiveArgument(b: bool, s: Session, input: seq<string>, at: nat, sent: seq<Request>, remote: Server)
    ensures SetActiveArgRun(s, if b then "True" else "False", input, at, sent, remote) == SetActiveRun(s, b, input, at, sent, remote)
  {
    ParseBoolReadsFlag(b);
  }

  /**
   * split_allocated_time changes no privilege and writes no file; without
   * AUTHORIZED_MODE or consent it sends nothing and exits 2. Otherwise it
   * lists the users, and when there are some, asks for the allocation and
   * sends category 0 the floor share; it exits 0 exactly when that last
   * request was sent and did not fail, and 1 otherwise.
   */
  lemma SplitGate(s: Session, input: seq<string>, at: nat, sent: seq<Request>, remote: Server)
    ensures var r := SplitRun(s, input, at, sent, remote);
      && r.session == s && !r.saved
      && (!s.authorizedMode ==> r.st == Exit(2) && r.requests == [] && r.linesRead == 0)
      && (r.requests != [] <==> s.authorizedMode && YesNo(LineAt(input, at)))
      && (r.requests != [] ==> r.requests[0] == ShowTimes)
      && (r.requests == [] ==> r.st == Exit(2))
    ensures var r := SplitRun(s, input, at, sent, remote);
      r.requests != [] ==>
        && (r.st == Exit(0) || r.st == Exit(1))
        && (|r.requests| == 3 <==> Length(remote(sent, ShowTimes)) != 0)
        && (|r.requests| == 3 ==>
              r.requests[1] == GetAllocatedTime
              && r.requests[2] == OffsetCategoryRequest(0, Share(AllocationFrom(remote(sent + [ShowTimes], GetAllocatedTime)), Length(remote(sent, ShowTimes)))))
        && (r.st == Exit(0) <==> |r.requests| == 3 && remote(sent + r.requests[..2], r.requests[2]) != FailureMarker)
  {
    var r := SplitRun(s, input, at, sent, remote);
    if s.authorizedMode && YesNo(LineAt(input, at)) && Length(remote(sent, ShowTimes)) != 0 {
      assert r.requests[..2] == [ShowTimes, GetAllocatedTime];
      assert sent + r.requests[..2] == sent + [ShowTimes] + [GetAllocatedTime];
    }
  }

  /**
   * What `main` does once the state is loaded: the one command given runs
   * from session `s`, reading standard input from line `at` on.
   */
  function CommandRun(cmd: Command, s: Session, input: seq<string>, at: nat, sent: seq<Request>, remote: Server,
                      unlockCode: string, unlockUser: Option<string>): Run {
    if IsQuery(cmd) then QueryRun(cmd, s, sent, remote)
    else match cmd
      case SetCoreModeCmd => CoreModeRun(s, input, at, sent, remote)
      case AuthorizeCmd => AuthorizeRun(s, input, at, unlockCode)
      case SetUserCmd(name) => UserRun(s, name, input, at, sent, remote, unlockUser)
      case SetActiveCmd(text) => SetActiveArgRun(s, text, input, at, sent, remote)
      case SplitAllocatedTimeCmd => SplitRun(s, input, at, sent, remote)
  }

  /**
   * Whatever command runs, privileges only grow, and each grows only through
   * its own command: AUTHORIZED_MODE through authorize, from CORE_MODE with a
   * user and the unlock code typed; CORE_MODE through set_core_mode; USER
   * through set_user, to the name given. The state file is written only when
   * the command exits with 0. The gated commands send nothing without
   * AUTHORIZED_MODE, and a bad number or boolean argument raises before any
   * request or prompt.
   */
  lemma {:induction false} PrivilegesOnlyGrow(cmd: Command, s: Session, input: seq<string>, at: nat, sent: seq<Request>, remote: Server,
                                              unlockCode: string, unlockUser: Option<string>)
    ensures var r := CommandRun(cmd, s, input, at, sent, remote, unlockCode, unlockUser);
      && (s.coreMode ==> r.session.coreMode)
      && (s.authorizedMode ==> r.session.authorizedMode)
      && (s.user.Some? ==> r.session.user.Some?)
      && (r.saved ==> r.st == Exit(0))
    ensures var r := CommandRun(cmd, s, input, at, sent, remote, unlockCode, unlockUser);
      r.session.authorizedMode != s.authorizedMode ==>
        cmd == AuthorizeCmd && r.st == Exit(0) && YesNo(LineAt(input, at)) && s.coreMode && s.user.Some?
        && LineAt(input, at + 1) == Some(unlockCode)
    ensures var r := CommandRun(cmd, s, input, at, sent, remote, unlockCode, unlockUser);
      r.session.coreMode != s.coreMode ==> cmd == SetCoreModeCmd && r.st == Exit(0)
    ensures var r := CommandRun(cmd, s, input, at, sent, remote, unlockCode, unlockUser);
      r.session.user != s.user ==> cmd.SetUserCmd? && r.st == Exit(0) && r.session.user == Some(cmd.name)
    ensures var r := CommandRun(cmd, s, input, at, sent, remote, unlockCode, unlockUser);
      (cmd.SetActiveCmd? || cmd.SplitAllocatedTimeCmd?) && !s.authorizedMode ==>
        r.requests == [] && r.linesRead == 0 && (r.st == Exit(2) || r.st == Raised(InvalidBoolean))
    ensures var r := CommandRun(cmd, s, input, at, sent, remote, unlockCode, unlockUser);
      r.st == Raised(InvalidNumber) || r.st == Raised(InvalidBoolean) ==> r.requests == [] && r.linesRead == 0
  {
    if IsQuery(cmd) {
      QueryRunsKeepSession(cmd, s, sent, remote);
    } else {
      match cmd
      case SetCoreModeCmd =>
        CoreModeGate(s, input, at, sent, remote);
      case AuthorizeCmd =>
        AuthorizeGate(s, input, at, unlockCode);
      case SetUserCmd(name) =>
        UserGate(s, name, input, at, sent, remote, unlockUser);
      case SetActiveCmd(text) =>
        SetActiveArgGate(s, text, input, at, sent, remote);
        if ParseBool(text).Some? {
          SetActiveGate(s, ParseBool(text).value, input, at, sent, remote);
        }
      case SplitAllocatedTimeCmd =>
        SplitGate(s, input, at, sent, remote);
    }
  }

  /** The process running `time_server.py`: its globals, its input and its state file. */
  class Cli {
    var coreMode: bool
    var authorizedMode: bool
    var user: Option<string>
    /** Every line of standard input. */
    const input: seq<string>
    /** How many lines `input()` has been asked for so far. */
    var pos: nat
    /** What the state file holds. */
    var stateFile: StateFile
    /** Whether writing the state file succeeds (it is best-effort). */
    const canSave: bool
    /** `config.UNLOCK_CODE`, `""` when the configuration has none. */
    const unlockCode: string
    /** `config.UNLOCK_USER` when the configuration has one. */
    const unlockUser: Option<string>
    const api: TimeServerApi

    constructor (api: TimeServerApi, input: seq<string>, stateFile: StateFile, canSave: bool,
                 unlockCode: string, unlockUser: Option<string>)
      ensures Current() == Defaults && pos == 0
      ensures this.input == input && this.stateFile == stateFile && this.canSave == canSave
      ensures this.unlockCode == unlockCode && this.unlockUser == unlockUser && this.api == api
    {
      coreMode, authorizedMode, user := false, false, None;
      this.input := input;
      pos := 0;
      this.stateFile := stateFile;
      this.canSave := canSave;
      this.unlockCode := unlockCode;
      this.unlockUser := unlockUser;
      this.api := api;
    }

    function Current(): Session
      reads this`coreMode, this`authorizedMode, this`user
    {
      Session(coreMode, authorizedMode, user)
    }

    /** `_load_state`. */
    method LoadState()
      modifies this`coreMode, this`authorizedMode, this`user
      ensures Current() == LoadedSession(old(Current()), stateFile)
    {
      var s := LoadedSession(Current(), stateFile);
      coreMode, authorizedMode, user := s.coreMode, s.authorizedMode, s.user;
    }

    /** `_save_state`: the current session is written when the write succeeds, and nothing changes when it fails. */
    method SaveState()
      modifies this`stateFile
      ensures stateFile == SavedFile(canSave, old(stateFile), Current())
    {
      if canSave {
        stateFile := Stored(SavedRecord(Current()));
      }
    }

    /** `input()`: the next line, `None` at the end of input (where Python raises EOFError). */
    method ReadLine() returns (line: Option<string>)
      modifies this`pos
      ensures line == LineAt(input, old(pos)) && pos == old(pos) + 1
    {
      line := if pos < |input| then Some(input[pos]) else None;
      pos := pos + 1;
    }

    /** `_yes_no`. */
    method Confirm() returns (yes: bool)
      modifies this`pos
      ensures yes == YesNo(LineAt(input, old(pos))) && pos == old(pos) + 1
    {
      var line := ReadLine();
      yes := YesNo(line);
    }

    /** `cmd_get_active`. */
    method CmdGetActive() returns (st: Outcome)
      modifies api
      ensures api.sent == old(api.sent) + [GetActive] && st == Exit(0)
    {
      var _ := api.GetSystemActive();
      st := Exit(0);
    }

    /** The table commands: 1 on the failure marker, else the table is printed or the printing raises. */
    method ShowTable(req: Request, cols: nat) returns (st: Outcome)
      requires cols >= 1
      modifies api
      ensures api.sent == old(api.sent) + [req]
      ensures st == TableOutcome(old(api.Answer(req)), cols)
    {
      var data := api.SendRequest(req);
      if data == FailureMarker {
        return Exit(1);
      }
      if !TablePrints(data, cols) {
        return Raised(NotATable);
      }
      st := Exit(0);
    }

    /** `cmd_list_user_times`: every item becomes a row (an error row when it is malformed), so only non-iterable data raises. */
    method CmdListUserTimes() returns (st: Outcome)
      modifies api
      ensures api.sent == old(api.sent) + [ShowTimes]
      ensures st == TimesOutcome(old(api.Answer(ShowTimes)))
    {
      var data := api.ListUserTimes();
      if data == FailureMarker {
        return Exit(1);
      }
      if TableRows(data).None? {
        return Raised(NotATable);
      }
      st := Exit(0);
    }

    /** `cmd_get_allocated_time`. */
    method CmdGetAllocatedTime() returns (st: Outcome)
      modifies api
      ensures api.sent == old(api.sent) + [GetAllocatedTime] && st == Exit(0)
    {
      var _ := api.GetTimeAllocation();
      st := Exit(0);
    }

    /** `cmd_apply_user_offset`. */
    method CmdApplyUserOffset(userId: int, offset: int) returns (st: Outcome)
      modifies api
      ensures api.sent == old(api.sent) + [OffsetUserRequest(userId, offset)]
      ensures st == ExitIf(old(api.Answer(OffsetUserRequest(userId, offset))) != FailureMarker)
    {
      var ok := api.ApplyOffsetUser(userId, offset);
      st := if ok then Exit(0) else Exit(1);
    }

    /** `cmd_apply_user_cat`. */
    method CmdApplyUserCat(catId: int, offset: int) returns (st: Outcome)
      modifies api
      ensures api.sent == old(api.sent) + [OffsetCategoryRequest(catId, offset)]
      ensures st == ExitIf(old(api.Answer(OffsetCategoryRequest(catId, offset))) != FailureMarker)
    {
      var ok := api.ApplyOffsetCategory(catId, offset);
      st := if ok then Exit(0) else Exit(1);
    }

    /**
     * `cmd_set_core_mode`: two consents, then the allocated total is asked
     * for and must be typed back. Only then is CORE_MODE set and saved.
     */
    method CmdSetCoreMode() returns (st: Outcome)
      modifies this`coreMode, this`pos, this`stateFile, api
      ensures var r := CoreModeRun(old(Current()), input, old(pos), old(api.sent), api.remote);
        st == r.st && Current() == r.session
      ensures var r := CoreModeRun(old(Current()), input, old(pos), old(api.sent), api.remote);
        pos == old(pos) + r.linesRead && api.sent == old(api.sent) + r.requests
      ensures var r := CoreModeRun(old(Current()), input, old(pos), old(api.sent), api.remote);
        stateFile == (if r.saved then SavedFile(canSave, old(stateFile), r.session) else old(stateFile))
    {
      var yes := Confirm();
      if !yes {
        return Exit(2);
      }
      yes := Confirm();
      if !yes {
        return Exit(2);
      }
      st := CheckAllocation();
    }

    /** The end of `cmd_set_core_mode`: CORE_MODE is set and saved only when the allocated total is typed back. */
    method CheckAllocation() returns (st: Outcome)
      modifies this`coreMode, this`pos, this`stateFile, api
      ensures var r := AllocationCheckRun(old(Current()), input, old(pos), old(api.sent), api.remote);
        st == r.st && Current() == r.session
      ensures var r := AllocationCheckRun(old(Current()), input, old(pos), old(api.sent), api.remote);
        pos == old(pos) + r.linesRead && api.sent == old(api.sent) + r.requests
      ensures var r := AllocationCheckRun(old(Current()), input, old(pos), old(api.sent), api.remote);
        stateFile == (if r.saved then SavedFile(canSave, old(stateFile), r.session) else old(stateFile))
    {
      var total := api.GetTimeAllocation();
      var answer := ReadLine();
      if answer.None? {
        return Raised(EndOfInput);
      }
      if !AnswerMatches(answer.value, total) {
        return Exit(2);
      }
      coreMode := true;
      SaveState();
      st := Exit(0);
    }

    /**
     * `cmd_authorize`: after consent, only a session in CORE_MODE with a user
     * may try, and only the unlock code sets AUTHORIZED_MODE. No request is
     * sent on any path.
     */
    method CmdAuthorize() returns (st: Outcome)
      modifies this`authorizedMode, this`pos, this`stateFile
      ensures var r := AuthorizeRun(old(Current()), input, old(pos), unlockCode);
        st == r.st && Current() == r.session
      ensures var r := AuthorizeRun(old(Current()), input, old(pos), unlockCode);
        pos == old(pos) + r.linesRead && r.requests == []
      ensures var r := AuthorizeRun(old(Current()), input, old(pos), unlockCode);
        stateFile == (if r.saved then SavedFile(canSave, old(stateFile), r.session) else old(stateFile))
    {
      var yes := Confirm();
      if !yes || !coreMode || user.None? {
        return Exit(2);
      }
      var password := ReadLine();
      if password.None? {
        return Raised(EndOfInput);
      }
      if password.value != unlockCode {
        return Exit(2);
      }
      authorizedMode := true;
      SaveState();
      st := Exit(0);
    }

    /**
     * `cmd_set_user`: after consent the users are listed and their count plus
     * one must be typed back; the name must be the configured user when one is
     * configured. Only then is USER set and saved. CORE_MODE is not required.
     */
    method CmdSetUser(name: string) returns (st: Outcome)
      modifies this`user, this`pos, this`stateFile, api
      ensures var r := UserRun(old(Current()), name, input, old(pos), old(api.sent), api.remote, unlockUser);
        st == r.st && Current() == r.session
      ensures var r := UserRun(old(Current()), name, input, old(pos), old(api.sent), api.remote, unlockUser);
        pos == old(pos) + r.linesRead && api.sent == old(api.sent) + r.requests
      ensures var r := UserRun(old(Current()), name, input, old(pos), old(api.sent), api.remote, unlockUser);
        stateFile == (if r.saved then SavedFile(canSave, old(stateFile), r.session) else old(stateFile))
    {
      var yes := Confirm();
      if !yes {
        return Exit(2);
      }
      st := CheckUser(name);
    }

    /** The end of `cmd_set_user`: USER is set and saved only when the user count plus one is typed back for an allowed name. */
    method CheckUser(name: string) returns (st: Outcome)
      modifies this`user, this`pos, this`stateFile, api
      ensures var r := UserCheckRun(old(Current()), name, input, old(pos), old(api.sent), api.remote, unlockUser);
        st == r.st && Current() == r.session
      ensures var r := UserCheckRun(old(Current()), name, input, old(pos), old(api.sent), api.remote, unlockUser);
        pos == old(pos) + r.linesRead && api.sent == old(api.sent) + r.requests
      ensures var r := UserCheckRun(old(Current()), name, input, old(pos), old(api.sent), api.remote, unlockUser);
        stateFile == (if r.saved then SavedFile(canSave, old(stateFile), r.session) else old(stateFile))
    {
      var users := api.ListUserTimes();
      var expected := ExpectedUserCount(users);
      var answer := ReadLine();
      if answer.None? {
        return Raised(EndOfInput);
      }
      if !AnswerMatches(answer.value, expected) {
        return Exit(2);
      }
      if unlockUser.Some? && name != unlockUser.value {
        return Exit(2);
      }
      user := Some(name);
      SaveState();
      st := Exit(0);
    }

    /**
     * `cmd_set_active`: refused with 2 before any prompt or request unless
     * AUTHORIZED_MODE; then three consents, and only then one `set_active`
     * request; 0 when it succeeded, else 1.
     */
    method CmdSetActive(state: bool) returns (st: Outcome)
      modifies this`pos, api
      ensures var r := SetActiveRun(old(Current()), state, input, old(pos), old(api.sent), api.remote);
        st == r.st && pos == old(pos) + r.linesRead && api.sent == old(api.sent) + r.requests
    {
      if !authorizedMode {
        return Exit(2);
      }
      var yes := Confirm();
      if !yes {
        return Exit(2);
      }
      yes := Confirm();
      if !yes {
        return Exit(2);
      }
      yes := Confirm();
      if !yes {
        return Exit(2);
      }
      var ok := api.SetActive(state);
      st := if ok then Exit(0) else Exit(1);
    }

    /** `cmd_split_allocated_time`: refused with 2 unless AUTHORIZED_MODE, then one consent. */
    method CmdSplitAllocatedTime() returns (st: Outcome)
      modifies this`pos, api
      ensures var r := SplitRun(old(Current()), input, old(pos), old(api.sent), api.remote);
        st == r.st && pos == old(pos) + r.linesRead && api.sent == old(api.sent) + r.requests
    {
      if !authorizedMode {
        return Exit(2);
      }
      var yes := Confirm();
      if !yes {
        return Exit(2);
      }
      var ok := api.SplitAllocatedEvenly();
      st := if ok then Exit(0) else Exit(1);
    }

    /** The commands that only talk to the server: they end where `QueryRun` says. */
    method RunQuery(cmd: Command) returns (st: Outcome)
      requires IsQuery(cmd)
      modifies api
      ensures var r := QueryRun(cmd, Current(), old(api.sent), api.remote);
        st == r.st && api.sent == old(api.sent) + r.requests
    {
      match cmd
      case GetActiveCmd =>
        st := CmdGetActive();
      case ListUserTimesCmd =>
        st := CmdListUserTimes();
      case ListUsersCmd =>
        st := ShowTable(ListUsersRequest, 7);
      case ListCategoriesCmd =>
        st := ShowTable(ListCategoriesRequest, 2);
      case GetLogsCmd =>
        st := ShowTable(GetLogs, 5);
      case GetAllocatedTimeCmd =>
        st := CmdGetAllocatedTime();
      case ApplyUserOffsetCmd(uid, off) =>
        var u, o := PyInt(uid, 10), PyInt(off, 10);
        if u.None? || o.None? {
          return Raised(InvalidNumber);
        }
        st := CmdApplyUserOffset(u.value, o.value);
      case ApplyUserCatCmd(cid, off) =>
        var c, o := PyInt(cid, 10), PyInt(off, 10);
        if c.None? || o.None? {
          return Raised(InvalidNumber);
        }
        st := CmdApplyUserCat(c.value, o.value);
    }

    /** `--set_active`: the argument is read as a boolean before `cmd_set_active` runs. */
    method RunSetActive(text: string) returns (st: Outcome)
      modifies this`pos, api
      ensures var r := SetActiveArgRun(old(Current()), text, input, old(pos), old(api.sent), api.remote);
        st == r.st && pos == old(pos) + r.linesRead && api.sent == old(api.sent) + r.requests
    {
      var state := ParseBool(text);
      if state.None? {
        return Raised(InvalidBoolean);
      }
      st := CmdSetActive(state.value);
    }

    /**
     * `main`: the state file is loaded, then the one command runs from the
     * loaded session, and the process ends where that command's run says: the
     * exit code or escaped error, the session, the state file, the requests
     * and the input read.
     */
    method Dispatch(cmd: Command) returns (st: Outcome)
      modifies this, api
      ensures var r := CommandRun(cmd, LoadedSession(old(Current()), old(stateFile)), input, old(pos), old(api.sent), api.remote, unlockCode, unlockUser);
        st == r.st && Current() == r.session
      ensures var r := CommandRun(cmd, LoadedSession(old(Current()), old(stateFile)), input, old(pos), old(api.sent), api.remote, unlockCode, unlockUser);
        pos == old(pos) + r.linesRead && api.sent == old(api.sent) + r.requests
      ensures var r := CommandRun(cmd, LoadedSession(old(Current()), old(stateFile)), input, old(pos), old(api.sent), api.remote, unlockCode, unlockUser);
        stateFile == (if r.saved then SavedFile(canSave, old(stateFile), r.session) else old(stateFile))
    {
      LoadState();
      ghost var loaded := Current();
      if IsQuery(cmd) {
        st := RunQuery(cmd);
        QueryRunsKeepSession(cmd, loaded, old(api.sent), api.remote);
        return;
      }
      match cmd
      case SetCoreModeCmd =>
        st := CmdSetCoreMode();
      case AuthorizeCmd =>
        st := CmdAuthorize();
      case SetUserCmd(name) =>
        st := CmdSetUser(name);
      case SetActiveCmd(text) =>
        st := RunSetActive(text);
        SetActiveArgGate(loaded, text, input, old(pos), old(api.sent), api.remote);
        if ParseBool(text).Some? {
          SetActiveGate(loaded, ParseBool(text).value, input, old(pos), old(api.sent), api.remote);
        }
      case SplitAllocatedTimeCmd =>
        st := CmdSplitAllocatedTime();
        SplitGate(loaded, input, old(pos), old(api.sent), api.remote);
    }
  }
}
