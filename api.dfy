/**
 * The time-server client (`TimeServerAPI`): coercion and formatting helpers,
 * the query encoding, and the operations that run fixed decision logic over
 * what the server answers. The HTTP exchange itself is the object's `remote`
 * function: the answer to a request, given every request sent before it.
 */
module TimeServerClient {
  import opened Wrappers
  import opened PyText
  import opened Dynamic
  import opened FormEncoding

  /* ---------------------------------------------------------------------- */
  /* format_time                                                             */
  /* ---------------------------------------------------------------------- */

  /** `format(n, "02d")` for a non-negative `n`. */
  function TwoDigits(n: nat): string {
    ZeroPad(Decimal(n), 2)
  }

  /** The days, hours, minutes and seconds `format_time` computes for a count `s >= 0`. */
  datatype ClockTime = ClockTime(days: nat, hours: nat, mins: nat, secs: nat)

  function Clock(s: nat): ClockTime {
    var days := s / 86400;
    var s1 := s - days * 86400;
    var hours := s1 / 3600;
    var s2 := s1 - hours * 3600;
    var mins := s2 / 60;
    ClockTime(days, hours, mins, s2 - mins * 60)
  }

  /** `format_time`: `days:HH:MM:SS`, negative counts shown as zero. */
  function FormatTime(seconds: int): (r: string)
    ensures |r| >= 10
  {
    var c := Clock(if seconds >= 0 then seconds else 0);
    ClockTextLength(c);
    Join([Decimal(c.days), TwoDigits(c.hours), TwoDigits(c.mins), TwoDigits(c.secs)], ":")
  }

  /** A clock reading is written in at least ten characters: `d:HH:MM:SS`. */
  lemma ClockTextLength(c: ClockTime)
    ensures |Join([Decimal(c.days), TwoDigits(c.hours), TwoDigits(c.mins), TwoDigits(c.secs)], ":")| >= 10
  {
    var parts := [Decimal(c.days), TwoDigits(c.hours), TwoDigits(c.mins), TwoDigits(c.secs)];
    assert Join(parts[2..], ":") == parts[2] + ":" + Join(parts[3..], ":");
    assert Join(parts[1..], ":") == parts[1] + ":" + Join(parts[2..], ":");
  }

  /** The clock fields are in range and add up to the count. */
  lemma ClockFields(s: nat)
    ensures var c := Clock(s);
      c.hours < 24 && c.mins < 60 && c.secs < 60
      && c.days * 86400 + c.hours * 3600 + c.mins * 60 + c.secs == s
  {
  }

  /**
   * The text `format_time` writes is four colon-separated runs of digits, the
   * last three exactly two long; read back they are days, hours below 24 and
   * minutes and seconds below 60 that add up to the count, or to zero for a
   * negative count.
   */
  lemma FormatTimeFields(seconds: int)
    ensures var parts := Split(FormatTime(seconds), ':');
      |parts| == 4 && IsDigits(parts[0])
      && |parts[1]| == 2 && IsDigits(parts[1]) && |parts[2]| == 2 && IsDigits(parts[2])
      && |parts[3]| == 2 && IsDigits(parts[3])
      && ValueOf(parts[1], 10) < 24 && ValueOf(parts[2], 10) < 60 && ValueOf(parts[3], 10) < 60
      && ValueOf(parts[0], 10) * 86400 + ValueOf(parts[1], 10) * 3600 + ValueOf(parts[2], 10) * 60
         + ValueOf(parts[3], 10) == (if seconds >= 0 then seconds else 0)
  {
    var n: nat := if seconds >= 0 then seconds else 0;
    var c := Clock(n);
    ClockFields(n);
    ClockText(c);
    var parts := Split(FormatTime(seconds), ':');
    assert parts == Split(Join([Decimal(c.days), TwoDigits(c.hours), TwoDigits(c.mins), TwoDigits(c.secs)], ":"), ':');
    assert ValueOf(parts[0], 10) == c.days && ValueOf(parts[1], 10) == c.hours;
    assert ValueOf(parts[2], 10) == c.mins && ValueOf(parts[3], 10) == c.secs;
  }

  /** The four fields of a clock reading, joined by colons, split back into runs of digits worth them. */
  lemma ClockText(c: ClockTime)
    requires c.hours < 24 && c.mins < 60 && c.secs < 60
    ensures var parts := Split(Join([Decimal(c.days), TwoDigits(c.hours), TwoDigits(c.mins), TwoDigits(c.secs)], ":"), ':');
      |parts| == 4 && IsDigits(parts[0]) && ValueOf(parts[0], 10) == c.days
      && |parts[1]| == 2 && IsDigits(parts[1]) && ValueOf(parts[1], 10) == c.hours
      && |parts[2]| == 2 && IsDigits(parts[2]) && ValueOf(parts[2], 10) == c.mins
      && |parts[3]| == 2 && IsDigits(parts[3]) && ValueOf(parts[3], 10) == c.secs
  {
    var a, b, x, d := Decimal(c.days), TwoDigits(c.hours), TwoDigits(c.mins), TwoDigits(c.secs);
    DayField(c.days);
    TwoDigitField(c.hours);
    TwoDigitField(c.mins);
    TwoDigitField(c.secs);
    SplitFour(a, b, x, d);
    var parts := Split(Join([a, b, x, d], ":"), ':');
    assert parts == [a, b, x, d];
    assert parts[0] == a && parts[1] == b && parts[2] == x && parts[3] == d;
  }

  /** Four colon-free pieces joined by colons split back into those pieces. */
  lemma SplitFour(a: string, b: string, c: string, d: string)
    requires ':' !in a && ':' !in b && ':' !in c && ':' !in d
    ensures Split(Join([a, b, c, d], ":"), ':') == [a, b, c, d]
  {
    var f := [a, b, c, d];
    assert forall i :: 0 <= i < |f| ==> ':' !in f[i];
    SplitJoin(f, ':');
  }

  /** The day count is written as a run of digits worth it. */
  lemma DayField(d: nat)
    ensures IsDigits(Decimal(d)) && ValueOf(Decimal(d), 10) == d && ':' !in Decimal(d)
  {
    PaddedDecimal(d, 0);
    assert ZeroPad(Decimal(d), 0) == Decimal(d);
    DigitsHaveNo(Decimal(d), ':');
  }

  /** A number below 100 is written as exactly two digits worth it. */
  lemma TwoDigitField(n: nat)
    requires n < 100
    ensures |TwoDigits(n)| == 2 && IsDigits(TwoDigits(n)) && ValueOf(TwoDigits(n), 10) == n
    ensures ':' !in TwoDigits(n)
  {
    PaddedDecimal(n, 2);
    TwoDigitsShort(n);
    DigitsHaveNo(TwoDigits(n), ':');
  }

  /** A run of decimal digits holds no other character. */
  lemma DigitsHaveNo(d: string, c: char)
    requires IsDigits(d) && !IsDecimalDigit(c)
    ensures c !in d
  {
  }

  /** A number below 100 takes exactly two digits once zero-padded to two. */
  lemma TwoDigitsShort(n: nat)
    requires n < 100
    ensures |TwoDigits(n)| == 2
  {
    assert Decimal(n) == NatDigits(n, 10);
    if n >= 10 {
      assert |NatDigits(n / 10, 10)| == 1;
    }
  }

  /* ---------------------------------------------------------------------- */
  /* _to_bool, _to_int, _to_form_scalar                                      */
  /* ---------------------------------------------------------------------- */

  /** The texts `_to_bool` reads as true, once trimmed and lower-cased. */
  const TrueWords: seq<string> := ["true", "1", "yes", "on", "active"]

  /** `_to_bool`: a loose reading of a JSON value as a flag. */
  predicate ToBool(v: Json): (r: bool)
    ensures v.Str? && r ==> 1 <= |Strip(v.s)| <= 6
  {
    match v
    case Bool(b) => b
    case Int(i) => i != 0
    case Str(s) => Lower(Strip(s)) in TrueWords
    case _ => false
  }

  /**
   * `_to_bool` keeps a flag, reads a number as "not zero", reads text as true
   * exactly when, trimmed, it spells one of the true words in any mix of
   * upper and lower case, and reads anything else as false.
   */
  lemma ToBoolMeaning(v: Json)
    ensures v.Bool? ==> (ToBool(v) <==> v.b)
    ensures v.Int? ==> (ToBool(v) <==> v.i != 0)
    ensures v.Str? ==> (ToBool(v) <==> exists k :: 0 <= k < |TrueWords| && SpelledAs(Strip(v.s), TrueWords[k]))
    ensures !v.Bool? && !v.Int? && !v.Str? ==> !ToBool(v)
  {
    if v.Str? {
      var t := Strip(v.s);
      TrueWordsLower();
      forall k | 0 <= k < |TrueWords|
        ensures Lower(t) == TrueWords[k] <==> SpelledAs(t, TrueWords[k])
      {
        LowerIsWord(t, TrueWords[k]);
      }
    }
  }

  /** No upper-case letter in `w`. */
  predicate NoUpper(w: string) {
    forall i :: 0 <= i < |w| ==> !('A' <= w[i] <= 'Z')
  }

  lemma TrueWordsLower()
    ensures forall k :: 0 <= k < |TrueWords| ==> NoUpper(TrueWords[k])
  {
    assert NoUpper(TrueWords[0]);
    assert NoUpper(TrueWords[1]);
    assert NoUpper(TrueWords[2]);
    assert NoUpper(TrueWords[3]);
    assert NoUpper(TrueWords[4]);
  }

  /** `_to_int`: a loose reading of a JSON value as a whole number, 0 when it is none. */
  function ToInt(v: Json): (r: int)
    ensures v.Int? ==> r == v.i
    ensures v.Bool? ==> r == (if v.b then 1 else 0)
    ensures v.Str? && r < 0 ==> |Strip(v.s)| >= 2 && Strip(v.s)[0] == '-'
    ensures v.Str? && !IsDigits(Strip(v.s)) && !(|Strip(v.s)| >= 1 && Strip(v.s)[0] == '-' && IsDigits(Strip(v.s)[1..])) ==> r == 0
    ensures v.Null? || v.Arr? || v.Obj? ==> r == 0
  {
    match v
    case Int(i) => i
    case Bool(b) => if b then 1 else 0
    case Str(s) =>
      var t := Strip(s);
      if StartsWith(t, "-") && IsDigits(t[1..]) then -(ValueOf(t[1..], 10) as int)
      else if IsDigits(t) then ValueOf(t, 10)
      else 0
    case _ => 0
  }

  /**
   * `_to_int` reads back every number `str()` writes, with any surrounding
   * whitespace: ` -12 ` gives -12.
   */
  lemma ToIntReadsDecimal(s: string, n: int)
    requires Strip(s) == Decimal(n)
    ensures ToInt(Str(s)) == n
  {
    var t := Strip(s);
    if n < 0 {
      var d := NatDigits(-n, 10);
      assert t == "-" + d && t[1..] == d;
      DecimalDigitsAreDigits(d);
    } else {
      var d := NatDigits(n, 10);
      assert t == d;
      DecimalDigitsAreDigits(d);
      assert !StartsWith(t, "-") by {
        assert DigitValue(t[0]) < 10;
      }
    }
  }

  /** Leading zeros are accepted: `007` reads as 7, whatever number of zeros leads. */
  lemma ToIntLeadingZeros(d: string, k: nat)
    requires IsDigits(d)
    ensures ToInt(Str(seq(k, _ => '0') + d)) == ToInt(Str(d)) == ValueOf(d, 10)
  {
    forall i | 0 <= i < |d| ensures DigitValue(d[i]) < 10 {
      assert IsDecimalDigit(d[i]);
    }
    LeadingZeros(d, k, 10);
    var t := seq(k, _ => '0') + d;
    DecimalDigitsAreDigits(t);
    ToIntDigits(t);
    ToIntDigits(d);
  }

  /** A plain run of decimal digits reads as its value. */
  lemma ToIntDigits(d: string)
    requires IsDigits(d)
    ensures ToInt(Str(d)) == ValueOf(d, 10)
  {
    assert IsDecimalDigit(d[0]) && IsDecimalDigit(d[|d| - 1]);
    StripUnchanged(d);
    assert !StartsWith(d, "-") by {
      assert d[..1][0] == d[0];
    }
  }

  /** A `-` before a plain run of decimal digits reads as its negated value: `-007` gives -7 and `-0` gives 0. */
  lemma ToIntNegativeDigits(d: string)
    requires IsDigits(d)
    ensures ToInt(Str("-" + d)) == -(ValueOf(d, 10) as int)
  {
    var t := "-" + d;
    assert IsDecimalDigit(d[|d| - 1]) && t[|t| - 1] == d[|d| - 1];
    StripUnchanged(t);
    assert t[..1] == "-" && t[1..] == d;
  }

  /** A leading `+` is no sign `_to_int` accepts: `+5` reads as 0. */
  lemma ToIntRejectsPlus()
    ensures ToInt(Str("+5")) == 0
  {
    StripUnchanged("+5");
    assert "+5"[..1] != "-";
    assert !IsDecimalDigit("+5"[0]);
  }

  /** `_to_form_scalar`: how one value is written into a query or form body. */
  function FormScalar(v: Json): (r: string)
    ensures v.Bool? ==> r == (if v.b then "True" else "False")
    ensures v.Null? ==> r == []
    ensures v.Int? ==> r == Decimal(v.i)
    ensures v.Str? ==> r == v.s
    ensures v.Arr? || v.Obj? ==> r == PyStr(v)
  {
    match v
    case Bool(b) => if b then "True" else "False"
    case Null => ""
    case _ => PyStr(v)
  }

  /**
   * What `_to_form_scalar` writes for a flag or a number is what `_to_bool`
   * and `_to_int` read back as that flag or number.
   */
  lemma FormScalarReadsBack(b: bool, n: int)
    ensures ToBool(Str(FormScalar(Bool(b)))) == b
    ensures ToInt(Str(FormScalar(Int(n)))) == n
  {
    FlagReadsBack(b);
    assert FormScalar(Int(n)) == Decimal(n);
    DecimalStripped(n);
    ToIntReadsDecimal(Decimal(n), n);
  }

  /** `_to_bool` reads `True` and `False` as the flags they name. */
  lemma FlagReadsBack(b: bool)
    ensures ToBool(Str(if b then "True" else "False")) == b
  {
    var t := if b then "True" else "False";
    StripUnchanged(t);
    if b {
      assert Lower(t) == "true" == TrueWords[0];
    } else {
      assert |Lower(t)| == 5;
      assert forall k :: 0 <= k < |TrueWords| ==> |TrueWords[k]| != 5;
    }
  }

  /** The decimal rendering of a number has no whitespace around it. */
  lemma DecimalStripped(n: int)
    ensures Strip(Decimal(n)) == Decimal(n)
  {
    var s := Decimal(n);
    var d := NatDigits(if n < 0 then -n else n, 10);
    assert DigitValue(d[|d| - 1]) < 10 && DigitValue(d[0]) < 10;
    assert s[|s| - 1] == d[|d| - 1];
    StripUnchanged(s);
  }

  /* ---------------------------------------------------------------------- */
  /* _encode_query                                                           */
  /* ---------------------------------------------------------------------- */

  /** The pairs one item of the dict expands to: one per element of a list, else one. */
  function Expand(key: string, v: Json): (r: seq<(string, string)>)
    ensures v.Arr? ==> |r| == |v.items| && forall j :: 0 <= j < |r| ==> r[j] == (key, FormScalar(v.items[j]))
    ensures !v.Arr? ==> r == [(key, FormScalar(v))]
  {
    if v.Arr? then seq(|v.items|, j requires 0 <= j < |v.items| => (key, FormScalar(v.items[j])))
    else [(key, FormScalar(v))]
  }

  /** The pairs `_encode_query` hands to `urlencode`: each item's expansion, in the dict's order. */
  function QueryPairs(data: seq<(string, Json)>): seq<(string, string)> {
    if data == [] then []
    else QueryPairs(data[..|data| - 1]) + Expand(data[|data| - 1].0, data[|data| - 1].1)
  }

  /** Expanding two runs of items one after the other gives their pairs one after the other. */
  lemma {:induction false} QueryPairsConcat(a: seq<(string, Json)>, b: seq<(string, Json)>)
    ensures QueryPairs(a + b) == QueryPairs(a) + QueryPairs(b)
    decreases |b|
  {
    if b != [] {
      var ab := a + b;
      var last := b[|b| - 1];
      assert ab[..|ab| - 1] == a + b[..|b| - 1] && ab[|ab| - 1] == last;
      assert QueryPairs(ab) == QueryPairs(a + b[..|b| - 1]) + Expand(last.0, last.1);
      assert QueryPairs(b) == QueryPairs(b[..|b| - 1]) + Expand(last.0, last.1);
      QueryPairsConcat(a, b[..|b| - 1]);
    } else {
      assert a + b == a;
    }
  }

  /** The pairs `_encode_query` appends for one item of the dict: one per element of a list value, or the one pair; `urlencode` then gets the flat list of pairs. */
  method ExpandItem(k: string, v: Json) returns (pairs: seq<(string, string)>)
    ensures pairs == Expand(k, v)
  {
    if !v.Arr? {
      return [(k, FormScalar(v))];
    }
    pairs := [];
    var j := 0;
    while j < |v.items|
      invariant 0 <= j <= |v.items|
      invariant pairs == Expand(k, v)[..j]
    {
      pairs := pairs + [(k, FormScalar(v.items[j]))];
      j := j + 1;
    }
  }

  /** `_encode_query`: `""` for no dict or an empty one, else the form encoding of the expanded pairs. */
  method EncodeQuery(data: Option<seq<(string, Json)>>) returns (q: string)
    ensures data.None? || data.value == [] ==> q == ""
    ensures data.Some? && data.value != [] ==> q == UrlEncode(QueryPairs(data.value))
  {
    if data.None? || data.value == [] {
      return "";
    }
    var d := data.value;
    var items: seq<(string, string)> := [];
    var i := 0;
    while i < |d|
      invariant 0 <= i <= |d|
      invariant items == QueryPairs(d[..i])
    {
      var (k, v) := d[i];
      assert d[..i + 1][..i] == d[..i];
      var pairs := ExpandItem(k, v);
      items := items + pairs;
      i := i + 1;
    }
    assert d[..i] == d;
    q := UrlEncode(items);
  }

  /**
   * A decoder reads the query `_encode_query` writes back as the expanded
   * pairs: every list element as its own pair under the list's key, in order.
   */
  lemma EncodedQueryDecodes(data: seq<(string, Json)>)
    ensures DecodeQuery(UrlEncode(QueryPairs(data))) == Some(QueryPairs(data))
  {
    UrlEncodeRoundTrip(QueryPairs(data));
  }

  /* ---------------------------------------------------------------------- */
  /* Decisions over the server's answers                                     */
  /* ---------------------------------------------------------------------- */

  const ActiveKeys: seq<string> := ["active", "is_active", "system_active"]
  const OutcomeKeys: seq<string> := ["ok", "success", "status", "active"]
  const AllocationKeys: seq<string> := ["allocated_time", "allocated", "value"]

  /** What `get_system_active` makes of the answer to `misc/get_active`. */
  function ActiveFrom(resp: Json): (r: bool)
    ensures resp == FailureMarker ==> !r
    ensures resp.Obj? && HasKey(resp.fields, "active") ==> r == ToBool(Get(resp.fields, "active").value)
    ensures resp.Obj? && !HasKey(resp.fields, "active") && HasKey(resp.fields, "is_active") ==>
      r == ToBool(Get(resp.fields, "is_active").value)
    ensures (resp.Obj? && !HasKey(resp.fields, "active") && !HasKey(resp.fields, "is_active")
      && HasKey(resp.fields, "system_active")) ==> r == ToBool(Get(resp.fields, "system_active").value)
    ensures (resp.Obj? && !HasKey(resp.fields, "active") && !HasKey(resp.fields, "is_active")
      && !HasKey(resp.fields, "system_active")) ==> !r
    ensures !resp.Obj? ==> r == ToBool(resp)
  {
    if resp == FailureMarker then false
    else if resp.Obj? then
      FirstPresentThree(resp.fields, "active", "is_active", "system_active");
      match FirstPresent(resp.fields, ActiveKeys)
      case Some(v) => ToBool(v)
      case None => ToBool(resp)
    else ToBool(resp)
  }

  /** What `set_active` makes of the answer to `misc/set_active`: any answer but the marker or a dict is success. */
  function OutcomeFrom(resp: Json): (r: bool)
    ensures resp == FailureMarker ==> !r
    ensures resp.Obj? && HasKey(resp.fields, "ok") ==> r == ToBool(Get(resp.fields, "ok").value)
    ensures resp.Obj? && !HasKey(resp.fields, "ok") && HasKey(resp.fields, "success") ==>
      r == ToBool(Get(resp.fields, "success").value)
    ensures (resp.Obj? && !HasKey(resp.fields, "ok") && !HasKey(resp.fields, "success")
      && HasKey(resp.fields, "status")) ==> r == ToBool(Get(resp.fields, "status").value)
    ensures (resp.Obj? && !HasKey(resp.fields, "ok") && !HasKey(resp.fields, "success")
      && !HasKey(resp.fields, "status") && HasKey(resp.fields, "active")) ==> r == ToBool(Get(resp.fields, "active").value)
    ensures (resp.Obj? && !HasKey(resp.fields, "ok") && !HasKey(resp.fields, "success")
      && !HasKey(resp.fields, "status") && !HasKey(resp.fields, "active")) ==> r
    ensures !resp.Obj? && resp != FailureMarker ==> r
  {
    if resp == FailureMarker then false
    else if resp.Obj? then
      FirstPresentFour(resp.fields, "ok", "success", "status", "active");
      match FirstPresent(resp.fields, OutcomeKeys)
      case Some(v) => ToBool(v)
      case None => true
    else true
  }

  /**
   * What `get_time_allocation` makes of the answer to `misc/get_allocated_time`.
   * It does not look for the failure marker: `False` reads as 0.
   */
  function AllocationFrom(resp: Json): (r: int)
    ensures resp == FailureMarker ==> r == 0
    ensures resp.Obj? && HasKey(resp.fields, "allocated_time") ==> r == ToInt(Get(resp.fields, "allocated_time").value)
    ensures resp.Obj? && !HasKey(resp.fields, "allocated_time") && HasKey(resp.fields, "allocated") ==>
      r == ToInt(Get(resp.fields, "allocated").value)
    ensures (resp.Obj? && !HasKey(resp.fields, "allocated_time") && !HasKey(resp.fields, "allocated")
      && HasKey(resp.fields, "value")) ==> r == ToInt(Get(resp.fields, "value").value)
    ensures (resp.Obj? && !HasKey(resp.fields, "allocated_time") && !HasKey(resp.fields, "allocated")
      && !HasKey(resp.fields, "value")) ==> r == 0
    ensures !resp.Obj? ==> r == ToInt(resp)
  {
    if resp.Obj? then
      FirstPresentThree(resp.fields, "allocated_time", "allocated", "value");
      match FirstPresent(resp.fields, AllocationKeys)
      case Some(v) => ToInt(v)
      case None => ToInt(resp)
    else ToInt(resp)
  }

  /** `total // n` for the `n > 0` users: the whole share of each, rounded down. */
  function Share(total: int, n: int): (r: int)
    requires n > 0
    ensures r * n <= total < r * n + n
  {
    total / n
  }

  /* ---------------------------------------------------------------------- */
  /* The client object                                                       */
  /* ---------------------------------------------------------------------- */

  /** The endpoints the client calls. */
  datatype Endpoint =
    | MiscGetActive | DisplayShowTimes | AdminListUsers | AdminListCategories | MiscGetLogs
    | MiscGetAllocatedTime | AdminBulkAddUserTime | AdminBulkAddUserTimeCategory | MiscSetActive

  /** The path of each endpoint under the server's base address, as the client spells it. */
  function Path(e: Endpoint): string {
    match e
    case MiscGetActive => "misc/get_active"
    case DisplayShowTimes => "display/show_times"
    case AdminListUsers => "admin/list_users"
    case AdminListCategories => "admin/list_categories"
    case MiscGetLogs => "misc/get_logs"
    case MiscGetAllocatedTime => "misc/get_allocated_time"
    case AdminBulkAddUserTime => "admin/bulk_add_user_time"
    case AdminBulkAddUserTimeCategory => "admin/bulk_add_user_time_category"
    case MiscSetActive => "misc/set_active"
  }

  /** The HTTP methods the client uses. */
  datatype Verb = HttpGet | HttpPost

  /** How `send_request` encodes a POST payload: `mode="form"` or `mode="json"`. */
  datatype Mode = Form | JsonMode

  /** One call of `send_request`: endpoint, method, payload and encoding mode. */
  datatype Request = Request(endpoint: Endpoint, verb: Verb, data: Option<seq<(string, Json)>>, mode: Mode)

  function GetRequest(endpoint: Endpoint): Request {
    Request(endpoint, HttpGet, None, Form)
  }

  const GetActive := GetRequest(MiscGetActive)
  const ShowTimes := GetRequest(DisplayShowTimes)
  const ListUsersRequest := GetRequest(AdminListUsers)
  const ListCategoriesRequest := GetRequest(AdminListCategories)
  const GetLogs := GetRequest(MiscGetLogs)
  const GetAllocatedTime := GetRequest(MiscGetAllocatedTime)

  /** The JSON body `apply_offset_user` posts. */
  function OffsetUserRequest(userId: int, offset: int): Request {
    Request(AdminBulkAddUserTime, HttpPost,
      Some([("user_ids", Arr([Int(userId)])), ("time_offset", Str(Decimal(offset)))]), JsonMode)
  }

  /** The JSON body `apply_offset_cat` posts. */
  function OffsetCategoryRequest(catId: int, offset: int): Request {
    Request(AdminBulkAddUserTimeCategory, HttpPost,
      Some([("ids", Arr([Int(catId)])), ("time_offset", Str(Decimal(offset)))]), JsonMode)
  }

  /** The form `set_active` posts: the new state as the text `True` or `False`. */
  function SetActiveRequest(state: bool): Request {
    Request(MiscSetActive, HttpPost, Some([("state", Str(if state then "True" else "False"))]), Form)
  }

  /** `TimeServerAPI`: the log of requests sent and the server that answers them. */
  class TimeServerApi {
    /** The server: its answer to a request (the failure marker when the exchange fails), given the requests before it. */
    const remote: (seq<Request>, Request) -> Json
    /** Every request sent so far, oldest first. */
    var sent: seq<Request>

    constructor (remote: (seq<Request>, Request) -> Json)
      ensures this.remote == remote && sent == []
    {
      this.remote := remote;
      sent := [];
    }

    /** The answer the server gives to `req` now. */
    function Answer(req: Request): Json
      reads this
    {
      remote(sent, req)
    }

    /** `send_request`: one exchange with the server. */
    method SendRequest(req: Request) returns (resp: Json)
      modifies this
      ensures sent == old(sent) + [req]
      ensures resp == old(Answer(req))
    {
      resp := remote(sent, req);
      sent := sent + [req];
    }

    /** `get_system_active`. */
    method GetSystemActive() returns (active: bool)
      modifies this
      ensures sent == old(sent) + [GetActive]
      ensures active == ActiveFrom(old(Answer(GetActive)))
    {
      var resp := SendRequest(GetActive);
      if resp == FailureMarker {
        return false;
      }
      if resp.Obj? {
        var k := 0;
        while k < |ActiveKeys|
          invariant 0 <= k <= |ActiveKeys|
          invariant forall j :: 0 <= j < k ==> !HasKey(resp.fields, ActiveKeys[j])
        {
          var v := Get(resp.fields, ActiveKeys[k]);
          if v.Some? {
            FirstPresentAt(resp.fields, ActiveKeys, k);
            return ToBool(v.value);
          }
          k := k + 1;
        }
        FirstPresentNone(resp.fields, ActiveKeys);
      }
      return ToBool(resp);
    }

    /** `list_user_times`: the raw answer of `display/show_times`. */
    method ListUserTimes() returns (resp: Json)
      modifies this
      ensures sent == old(sent) + [ShowTimes] && resp == old(Answer(ShowTimes))
    {
      resp := SendRequest(ShowTimes);
    }

    /** `list_users`. */
    method ListUsers() returns (resp: Json)
      modifies this
      ensures sent == old(sent) + [ListUsersRequest] && resp == old(Answer(ListUsersRequest))
    {
      resp := SendRequest(ListUsersRequest);
    }

    /** `list_user_cat`. */
    method ListUserCategories() returns (resp: Json)
      modifies this
      ensures sent == old(sent) + [ListCategoriesRequest] && resp == old(Answer(ListCategoriesRequest))
    {
      resp := SendRequest(ListCategoriesRequest);
    }

    /** `list_logs`. */
    method ListLogs() returns (resp: Json)
      modifies this
      ensures sent == old(sent) + [GetLogs] && resp == old(Answer(GetLogs))
    {
      resp := SendRequest(GetLogs);
    }

    /** `apply_offset_user`: success unless the exchange failed. */
    method ApplyOffsetUser(userId: int, offset: int) returns (ok: bool)
      modifies this
      ensures sent == old(sent) + [OffsetUserRequest(userId, offset)]
      ensures ok <==> old(Answer(OffsetUserRequest(userId, offset))) != FailureMarker
    {
      var resp := SendRequest(OffsetUserRequest(userId, offset));
      ok := resp != FailureMarker;
    }

    /** `apply_offset_cat`: success unless the exchange failed. */
    method ApplyOffsetCategory(catId: int, offset: int) returns (ok: bool)
      modifies this
      ensures sent == old(sent) + [OffsetCategoryRequest(catId, offset)]
      ensures ok <==> old(Answer(OffsetCategoryRequest(catId, offset))) != FailureMarker
    {
      var resp := SendRequest(OffsetCategoryRequest(catId, offset));
      ok := resp != FailureMarker;
    }

    /** `set_active`. */
    method SetActive(newState: bool) returns (ok: bool)
      modifies this
      ensures sent == old(sent) + [SetActiveRequest(newState)]
      ensures ok == OutcomeFrom(old(Answer(SetActiveRequest(newState))))
    {
      var resp := SendRequest(SetActiveRequest(newState));
      if resp == FailureMarker {
        return false;
      }
      if resp.Obj? {
        var k := 0;
        while k < |OutcomeKeys|
          invariant 0 <= k <= |OutcomeKeys|
          invariant forall j :: 0 <= j < k ==> !HasKey(resp.fields, OutcomeKeys[j])
        {
          var v := Get(resp.fields, OutcomeKeys[k]);
          if v.Some? {
            FirstPresentAt(resp.fields, OutcomeKeys, k);
            return ToBool(v.value);
          }
          k := k + 1;
        }
        FirstPresentNone(resp.fields, OutcomeKeys);
      }
      return true;
    }

    /** `deactivate_system`: switch the system off when it reports itself active. */
    method DeactivateSystem() returns (ok: bool)
      modifies this
      ensures var active := ActiveFrom(old(Answer(GetActive)));
        var asked := old(sent) + [GetActive];
        if active then
          sent == asked + [SetActiveRequest(false)] && ok == OutcomeFrom(remote(asked, SetActiveRequest(false)))
        else
          sent == asked && !ok
    {
      ok := false;
      var active := GetSystemActive();
      if active {
        ok := SetActive(false);
      }
    }

    /** `get_time_allocation`. */
    method GetTimeAllocation() returns (total: int)
      modifies this
      ensures sent == old(sent) + [GetAllocatedTime]
      ensures total == AllocationFrom(old(Answer(GetAllocatedTime)))
    {
      var resp := SendRequest(GetAllocatedTime);
      if resp.Obj? {
        var k := 0;
        while k < |AllocationKeys|
          invariant 0 <= k <= |AllocationKeys|
          invariant forall j :: 0 <= j < k ==> !HasKey(resp.fields, AllocationKeys[j])
        {
          var v := Get(resp.fields, AllocationKeys[k]);
          if v.Some? {
            FirstPresentAt(resp.fields, AllocationKeys, k);
            return ToInt(v.value);
          }
          k := k + 1;
        }
        FirstPresentNone(resp.fields, AllocationKeys);
      }
      return ToInt(resp);
    }

    /**
     * `split_allocated_evenly`: nothing beyond the user list is requested when
     * the list is missing, not a list or dict, or empty; otherwise every user
     * (category 0) gets the allocated total divided by the user count, rounded
     * down.
     */
    method SplitAllocatedEvenly() returns (ok: bool)
      modifies this
      ensures var users := old(Answer(ShowTimes));
        var listed := old(sent) + [ShowTimes];
        if Length(users) == 0 then
          sent == listed && !ok
        else
          var counted := listed + [GetAllocatedTime];
          var share := Share(AllocationFrom(remote(listed, GetAllocatedTime)), Length(users));
          sent == counted + [OffsetCategoryRequest(0, share)]
          && (ok <==> remote(counted, OffsetCategoryRequest(0, share)) != FailureMarker)
    {
      var users := ListUserTimes();
      if users == FailureMarker || users == Null {
        return false;
      }
      var n := Length(users);
      if n == 0 {
        return false;
      }
      var total := GetTimeAllocation();
      var offset := Share(total, n);
      ok := ApplyOffsetCategory(0, offset);
    }
  }

  /** When the loop over `keys` stops at the first key present, that key's value is the first present one. */
  lemma FirstPresentAt(fields: seq<(string, Json)>, keys: seq<string>, k: nat)
    requires k < |keys| && HasKey(fields, keys[k])
    requires forall j :: 0 <= j < k ==> !HasKey(fields, keys[j])
    ensures FirstPresent(fields, keys) == Get(fields, keys[k])
  {
    var r := FirstPresent(fields, keys);
    var j :| 0 <= j < |keys| && Get(fields, keys[j]) == r
      && forall j' :: 0 <= j' < j ==> !HasKey(fields, keys[j']);
    assert j == k;
  }

  /** The first present of three keys, spelled out. */
  lemma FirstPresentThree(fields: seq<(string, Json)>, a: string, b: string, c: string)
    ensures FirstPresent(fields, [a, b, c]) ==
      if HasKey(fields, a) then Get(fields, a)
      else if HasKey(fields, b) then Get(fields, b)
      else if HasKey(fields, c) then Get(fields, c)
      else None
  {
    assert [a, b, c][1..] == [b, c] && [b, c][1..] == [c] && [c][1..] == [];
  }

  /** The first present of four keys, spelled out. */
  lemma FirstPresentFour(fields: seq<(string, Json)>, a: string, b: string, c: string, d: string)
    ensures FirstPresent(fields, [a, b, c, d]) ==
      if HasKey(fields, a) then Get(fields, a)
      else if HasKey(fields, b) then Get(fields, b)
      else if HasKey(fields, c) then Get(fields, c)
      else if HasKey(fields, d) then Get(fields, d)
      else None
  {
    assert [a, b, c, d][1..] == [b, c, d];
    FirstPresentThree(fields, b, c, d);
  }

  /** When the loop finds none of `keys`, no key is present. */
  lemma FirstPresentNone(fields: seq<(string, Json)>, keys: seq<string>)
    requires forall j :: 0 <= j < |keys| ==> !HasKey(fields, keys[j])
    ensures FirstPresent(fields, keys) == None
  {
  }
}
