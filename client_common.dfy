/**
 * The browser module's pure helpers (input validation, time formatting)
 * and the reconnect bookkeeping of its WebSocket wrapper. Sockets, timers
 * and the DOM are outside the model: a timer firing is a method call.
 */
module ClientCommon {
  import opened Wrappers
  import opened Strings
  import NicknameValidator

  const MAX_NICKNAME_LENGTH: nat := 20
  const MAX_MESSAGE_LENGTH: nat := 2048
  const RECONNECT_MAX_ATTEMPTS: nat := 5
  const RECONNECT_DELAY_BASE: nat := 1000
  const RECONNECT_DELAY_CAP: nat := 30000

  const CLIENT_FORBIDDEN_NAMES: seq<string> :=
    ["admin", "administrator", "system", "root", "null", "undefined",
     "관리자", "시스템", "운영자", "서버", "bot"]

  // ---------------- JavaScript whitespace and trim ----------------

  /** ECMAScript WhiteSpace and LineTerminator: what `\s` matches and trim removes. */
  predicate IsJsSpace(c: char)
  {
    || c == '\t' || c == '\n' || c == '\U{000B}' || c == '\U{000C}' || c == '\r' || c == ' '
    || c == '\U{00A0}' || c == '\U{1680}' || ('\U{2000}' <= c <= '\U{200A}')
    || c == '\U{2028}' || c == '\U{2029}' || c == '\U{202F}' || c == '\U{205F}'
    || c == '\U{3000}' || c == '\U{FEFF}'
  }

  function JsTrimStart(s: string): (r: string)
    ensures |r| <= |s| && r == s[|s| - |r|..]
    ensures forall i :: 0 <= i < |s| - |r| ==> IsJsSpace(s[i])
    ensures r == [] || !IsJsSpace(r[0])
  {
    if s != [] && IsJsSpace(s[0]) then JsTrimStart(s[1..]) else s
  }

  function JsTrimEnd(s: string): (r: string)
    ensures |r| <= |s| && r == s[..|r|]
    ensures forall i :: |r| <= i < |s| ==> IsJsSpace(s[i])
    ensures r == [] || !IsJsSpace(r[|r| - 1])
  {
    if s != [] && IsJsSpace(s[|s| - 1]) then JsTrimEnd(s[..|s| - 1]) else s
  }

  /** String.prototype.trim. */
  function JsTrim(s: string): string { JsTrimEnd(JsTrimStart(s)) }

  /** A string that starts and ends with a non-space char is its own trim. */
  lemma JsTrimKeeps(s: string)
    requires s != [] && !IsJsSpace(s[0]) && !IsJsSpace(s[|s| - 1])
    ensures JsTrim(s) == s
  {
    assert JsTrimStart(s) == s;
  }

  /** `!x || x.trim().length === 0`: null, undefined and the empty string are falsy. */
  predicate JsBlank(s: Option<string>) { s.None? || JsTrim(s.value) == [] }

  // ---------------- validation ----------------

  /** The `{ valid, value }` / `{ valid, message }` objects the validators return. */
  datatype Validation = Accepted(value: string) | Rejected(message: string)

  /** The nickname pattern as JavaScript reads it: `\s` is the JavaScript class. */
  predicate IsJsNicknameChar(c: char)
  {
    NicknameValidator.IsHangulSyllable(c) || NicknameValidator.IsAsciiAlnum(c) || IsJsSpace(c) || c == '_' || c == '-'
  }

  predicate JsMatchesPattern(s: string)
  {
    |s| > 0 && forall i :: 0 <= i < |s| ==> IsJsNicknameChar(s[i])
  }

  /** validateNickname. */
  function ValidateNickname(nickname: Option<string>): (v: Validation)
    ensures JsBlank(nickname) ==> v == Rejected("닉네임을 입력해주세요")
    ensures v.Accepted? <==>
      && !JsBlank(nickname)
      && Utf16Length(JsTrim(nickname.value)) <= MAX_NICKNAME_LENGTH
      && JsMatchesPattern(JsTrim(nickname.value))
      && !NicknameValidator.NamesForbidden(ToLower(JsTrim(nickname.value)), CLIENT_FORBIDDEN_NAMES)
    ensures v.Accepted? ==> v.value == JsTrim(nickname.value)
  {
    if JsBlank(nickname) then Rejected("닉네임을 입력해주세요")
    else
      var trimmed := JsTrim(nickname.value);
      if Utf16Length(trimmed) > MAX_NICKNAME_LENGTH then Rejected("닉네임은 20자 이하로 입력해주세요")
      else if !JsMatchesPattern(trimmed) then Rejected("닉네임에는 한글, 영문, 숫자, 공백, _, -만 사용할 수 있습니다")
      else if NicknameValidator.ScanForbidden(ToLower(trimmed), CLIENT_FORBIDDEN_NAMES, 0) then Rejected("사용할 수 없는 닉네임입니다")
      else Accepted(trimmed)
  }

  /** validateMessage: the length limit counts UTF-16 units of the trimmed text. */
  function ValidateMessage(message: Option<string>): (v: Validation)
    ensures JsBlank(message) ==> v == Rejected("메시지를 입력해주세요")
    ensures !JsBlank(message) && Utf16Length(JsTrim(message.value)) > MAX_MESSAGE_LENGTH ==>
      v == Rejected("메시지가 너무 깁니다 (최대 2KB)")
    ensures v.Accepted? <==> !JsBlank(message) && Utf16Length(JsTrim(message.value)) <= MAX_MESSAGE_LENGTH
    ensures v.Accepted? ==> v.value == JsTrim(message.value) && v.value != []
  {
    if JsBlank(message) then Rejected("메시지를 입력해주세요")
    else
      var trimmed := JsTrim(message.value);
      if Utf16Length(trimmed) > MAX_MESSAGE_LENGTH then Rejected("메시지가 너무 깁니다 (최대 2KB)")
      else Accepted(trimmed)
  }

  /** validateRoomId. */
  function ValidateRoomId(roomId: Option<string>): (v: Validation)
    ensures JsBlank(roomId) ==> v == Rejected("방 코드를 입력해주세요")
    ensures v.Accepted? <==> !JsBlank(roomId) && 3 <= Utf16Length(JsTrim(roomId.value)) <= 20
    ensures !JsBlank(roomId) && v.Rejected? ==> v.message == "방 코드는 3-20자여야 합니다"
    ensures v.Accepted? ==> v.value == JsTrim(roomId.value)
  {
    if JsBlank(roomId) then Rejected("방 코드를 입력해주세요")
    else
      var trimmed := JsTrim(roomId.value);
      if Utf16Length(trimmed) < 3 || Utf16Length(trimmed) > 20 then Rejected("방 코드는 3-20자여야 합니다")
      else Accepted(trimmed)
  }

  /** Every validator's accepted value is already trimmed: validating it again accepts it unchanged. */
  lemma {:induction false} AcceptedValueIsTrimmed(s: string)
    ensures JsTrim(JsTrim(s)) == JsTrim(s)
    ensures ValidateMessage(Some(s)).Accepted? ==> ValidateMessage(Some(ValidateMessage(Some(s)).value)) == ValidateMessage(Some(s))
    ensures ValidateRoomId(Some(s)).Accepted? ==> ValidateRoomId(Some(ValidateRoomId(Some(s)).value)) == ValidateRoomId(Some(s))
    ensures ValidateNickname(Some(s)).Accepted? ==> ValidateNickname(Some(ValidateNickname(Some(s)).value)) == ValidateNickname(Some(s))
  {
    var t := JsTrim(s);
    if t != [] {
      assert !IsJsSpace(t[0]) by {
        var u := JsTrimStart(s);
        assert t == u[..|t|];
        assert u != [] ;
      }
      assert JsTrimStart(t) == t;
      assert JsTrimEnd(t) == t;
    } else {
      assert JsTrimStart(t) == [] && JsTrimEnd([]) == [];
    }
  }

  // ---------------- client and server rules side by side ----------------

  /**
   * A character on which the two whitespace notions cannot differ: one of
   * the six ASCII spaces both regex engines know, or not whitespace at all
   * for either trim.
   */
  predicate SharedWhitespaceOnly(c: char)
  {
    NicknameValidator.IsRegexSpace(c) || (!IsJavaSpace(c) && !IsJsSpace(c))
  }

  lemma {:induction false} TrimsAgree(s: string)
    requires forall i :: 0 <= i < |s| ==> SharedWhitespaceOnly(s[i])
    ensures JsTrim(s) == JavaTrim(s)
  {
    StartTrimsAgree(s);
    TrimStartKeepsShared(s);
    EndTrimsAgree(TrimStart(s));
  }

  lemma TrimStartKeepsShared(s: string)
    requires forall i :: 0 <= i < |s| ==> SharedWhitespaceOnly(s[i])
    ensures forall i :: 0 <= i < |TrimStart(s)| ==> SharedWhitespaceOnly(TrimStart(s)[i])
  {
    var u := TrimStart(s);
    var k := |s| - |u|;
    assert u == s[k..|s|];
    SliceKeepsShared(s, k, |s|);
  }

  lemma {:induction false} StartTrimsAgree(s: string)
    requires forall i :: 0 <= i < |s| ==> SharedWhitespaceOnly(s[i])
    ensures JsTrimStart(s) == TrimStart(s)
    decreases |s|
  {
    if s != [] {
      assert IsJsSpace(s[0]) == IsJavaSpace(s[0]) by { assert SharedWhitespaceOnly(s[0]); }
      if IsJsSpace(s[0]) {
        assert forall i :: 0 <= i < |s[1..]| ==> s[1..][i] == s[i + 1];
        StartTrimsAgree(s[1..]);
        assert TrimStart(s) == TrimStart(s[1..]);
      } else {
        assert TrimStart(s) == s;
      }
    }
  }

  lemma {:induction false} EndTrimsAgree(s: string)
    requires forall i :: 0 <= i < |s| ==> SharedWhitespaceOnly(s[i])
    ensures JsTrimEnd(s) == TrimEnd(s)
    decreases |s|
  {
    if s != [] {
      var k := |s| - 1;
      assert IsJsSpace(s[k]) == IsJavaSpace(s[k]) by { assert SharedWhitespaceOnly(s[k]); }
      if IsJsSpace(s[k]) {
        assert forall i :: 0 <= i < |s[..k]| ==> s[..k][i] == s[i];
        EndTrimsAgree(s[..k]);
        assert TrimEnd(s) == TrimEnd(s[..k]);
      } else {
        assert TrimEnd(s) == s;
      }
    }
  }

  /** The two forbidden-name lists are the same list. */
  lemma ForbiddenListsAgree()
    ensures CLIENT_FORBIDDEN_NAMES == NicknameValidator.FORBIDDEN_NAMES
  {
  }

  lemma PatternsAgree(t: string)
    requires forall k :: 0 <= k < |t| ==> SharedWhitespaceOnly(t[k])
    ensures NicknameValidator.MatchesPattern(t) == JsMatchesPattern(t)
  {
    forall k | 0 <= k < |t| ensures NicknameValidator.IsNicknameChar(t[k]) == IsJsNicknameChar(t[k]) {
      assert SharedWhitespaceOnly(t[k]);
    }
  }

  lemma TrimKeepsShared(s: string)
    requires forall i :: 0 <= i < |s| ==> SharedWhitespaceOnly(s[i])
    ensures forall k :: 0 <= k < |JavaTrim(s)| ==> SharedWhitespaceOnly(JavaTrim(s)[k])
  {
    JavaTrimSlice(s);
    var i, j :| 0 <= i <= j <= |s| && JavaTrim(s) == s[i..j];
    SliceKeepsShared(s, i, j);
  }

  lemma SliceKeepsShared(s: string, i: int, j: int)
    requires 0 <= i <= j <= |s|
    requires forall k :: 0 <= k < |s| ==> SharedWhitespaceOnly(s[k])
    ensures forall k :: 0 <= k < j - i ==> SharedWhitespaceOnly(s[i..j][k])
  {
    forall k | 0 <= k < j - i ensures SharedWhitespaceOnly(s[i..j][k]) {
      assert s[i..j][k] == s[i + k];
    }
  }

  lemma Utf16LengthPositive(t: string)
    ensures Utf16Length(t) >= 1 <==> t != []
  {
  }

  /**
   * Client and server decide a nickname alike when it holds no whitespace
   * other than the six ASCII spaces (no NBSP, no ideographic space, no
   * other control character).
   */
  lemma NicknameRulesAgree(s: string)
    requires forall i :: 0 <= i < |s| ==> SharedWhitespaceOnly(s[i])
    ensures ValidateNickname(Some(s)).Accepted? <==> NicknameValidator.IsValid(Some(s))
  {
    TrimsAgree(s);
    var t := JavaTrim(s);
    TrimKeepsShared(s);
    PatternsAgree(t);
    Utf16LengthPositive(t);
    ForbiddenListsAgree();
    var client := ValidateNickname(Some(s));
    var server := NicknameValidator.Check(Some(s));
    assert client.Accepted? <==>
      t != [] && Utf16Length(t) <= MAX_NICKNAME_LENGTH && JsMatchesPattern(t)
      && !NicknameValidator.NamesForbidden(ToLower(t), NicknameValidator.FORBIDDEN_NAMES);
    assert server == NicknameValidator.Valid <==>
      1 <= Utf16Length(t) <= NicknameValidator.MAX_LENGTH && NicknameValidator.MatchesPattern(t)
      && !NicknameValidator.NamesForbidden(ToLower(t), NicknameValidator.FORBIDDEN_NAMES);
  }

  /** The string "a", no-break space, "b". */
  function NbspSample(): string { "a\U{00A0}b" }

  lemma NbspSampleHasNoForbiddenName()
    ensures !NicknameValidator.NamesForbidden(ToLower(NbspSample()), CLIENT_FORBIDDEN_NAMES)
    ensures !NicknameValidator.NamesForbidden(ToLower(NbspSample()), NicknameValidator.FORBIDDEN_NAMES)
  {
    var s := NbspSample();
    assert ToLower(s) == s;
    ForbiddenListsAgree();
    forall j | 0 <= j < |CLIENT_FORBIDDEN_NAMES| ensures !Contains(s, ToLower(CLIENT_FORBIDDEN_NAMES[j])) {
      var n := ToLower(CLIENT_FORBIDDEN_NAMES[j]);
      forall i | 0 <= i <= |s| ensures !OccursAt(s, n, i) {
        if 0 <= i <= |s| - |n| {
          assert s[i..i + |n|][0] == s[i];
          assert s[i..i + |n|][|n| - 1] == s[i + |n| - 1];
        }
      }
    }
  }

  lemma NbspSampleTrims()
    ensures JsTrim(NbspSample()) == NbspSample() && JavaTrim(NbspSample()) == NbspSample()
    ensures Utf16Length(NbspSample()) == 3
  {
    NbspSampleJsTrims();
    NbspSampleJavaTrims();
    NbspSampleLength();
  }

  lemma NbspSampleJsTrims()
    ensures JsTrim(NbspSample()) == NbspSample()
  {
    var s := NbspSample();
    assert s[0] == 'a' && s[2] == 'b';
    JsTrimKeeps(s);
  }

  lemma NbspSampleJavaTrims()
    ensures JavaTrim(NbspSample()) == NbspSample()
  {
    var s := NbspSample();
    assert s[0] == 'a' && s[2] == 'b';
    JavaTrimKeeps(s);
  }

  lemma NbspSampleLength()
    ensures Utf16Length(NbspSample()) == 3
  {
    var s := NbspSample();
    forall i | 0 <= i < |s| ensures s[i] as int < 0x10000 {
      if i == 0 {} else if i == 1 {} else {}
    }
    Utf16LengthBmp(s);
  }

  /** Outside that condition they part: a no-break space passes the client and fails the server. */
  lemma NoBreakSpaceSplitsTheRules()
    ensures ValidateNickname(Some(NbspSample())) == Accepted(NbspSample())
    ensures NicknameValidator.Check(Some(NbspSample())) == NicknameValidator.Invalid(Some(NicknameValidator.PATTERN_MESSAGE))
  {
    NbspPassesClient();
    NbspFailsServer();
  }

  lemma NbspPassesClient()
    ensures ValidateNickname(Some(NbspSample())) == Accepted(NbspSample())
  {
    var s := NbspSample();
    NbspSampleJsTrims();
    NbspSampleLength();
    NbspSampleHasNoForbiddenName();
    assert JsMatchesPattern(s) by {
      assert IsJsNicknameChar(s[0]) && IsJsSpace(s[1]) && IsJsNicknameChar(s[2]);
    }
  }

  lemma NbspFailsServer()
    ensures NicknameValidator.Check(Some(NbspSample())) == NicknameValidator.Invalid(Some(NicknameValidator.PATTERN_MESSAGE))
  {
    NbspSampleJavaTrims();
    CheckOfTrimmed(NbspSample());
    NbspSampleFailsPattern();
  }

  lemma CheckOfTrimmed(s: string)
    requires JavaTrim(s) == s
    ensures NicknameValidator.Check(Some(s)) == NicknameValidator.CheckTrimmed(s)
  {
  }

  lemma NbspSampleFailsPattern()
    ensures NicknameValidator.CheckTrimmed(NbspSample()) == NicknameValidator.Invalid(Some(NicknameValidator.PATTERN_MESSAGE))
  {
    var s := NbspSample();
    NbspSampleLength();
    assert !NicknameValidator.MatchesPattern(s) by {
      assert !NicknameValidator.IsNicknameChar(s[1]);
    }
  }

  lemma {:induction false} RepeatedLengths(n: nat, c: char)
    ensures Utf8Length(seq(n, _ => c)) == n * Utf8Width(c)
    ensures c as int < 0x10000 ==> Utf16Length(seq(n, _ => c)) == n
  {
    if n > 0 {
      var s := seq(n, _ => c);
      assert s[1..] == seq(n - 1, _ => c);
      RepeatedLengths(n - 1, c);
    }
  }

  /**
   * The client's 2048-unit message limit and the server's 2048-byte limit
   * differ: 683 Hangul syllables (683 units, 2049 bytes) pass the client
   * and exceed the server's limit.
   */
  lemma MessageLimitsDiffer()
    ensures var s := seq(683, _ => '가');
      && ValidateMessage(Some(s)) == Accepted(s)
      && Utf8Length(s) > 2048
  {
    var s := seq(683, _ => '가');
    RepeatedLengths(683, '가');
    assert s[0] == '가' && s[682] == '가';
    JsTrimKeeps(s);
  }

  // ---------------- time formatting ----------------

  function Digit(d: nat): char
    requires d < 10
  {
    (48 + d) as char
  }

  /** `hours % 12 || 12`. */
  function DisplayHour(hours: nat): (d: nat)
    ensures 1 <= d <= 12 && d % 12 == hours % 12
  {
    if hours % 12 == 0 then 12 else hours % 12
  }

  function Period(hours: nat): string
  {
    if hours < 12 then "오전" else "오후"
  }

  /** `padStart(2, '0')` of a decimal string. */
  function PadStart2(s: string): string
  {
    if |s| < 2 then seq(2 - |s|, _ => '0') + s else s
  }

  lemma MinutesAsTwoDigits(m: nat)
    requires m < 60
    ensures PadStart2(NatToString(m)) == [Digit(m / 10), Digit(m % 10)]
  {
    if m >= 10 {
      assert NatToString(m) == NatToString(m / 10) + [Digit(m % 10)];
    }
  }

  /** formatTime for a Date whose local hours and minutes are given. */
  function FormatTime(hours: nat, minutes: nat): (r: string)
    requires hours < 24 && minutes < 60
    ensures |r| == |NatToString(DisplayHour(hours))| + 6
    ensures r[..2] == (if hours < 12 then "오전" else "오후") && r[2] == ' '
    ensures r[3..|r| - 3] == NatToString(DisplayHour(hours))
    ensures r[|r| - 3] == ':' && r[|r| - 2..] == [Digit(minutes / 10), Digit(minutes % 10)]
  {
    MinutesAsTwoDigits(minutes);
    Period(hours) + " " + NatToString(DisplayHour(hours)) + ":" + PadStart2(NatToString(minutes))
  }

  lemma {:induction false} NatToStringInjective(a: nat, b: nat)
    requires NatToString(a) == NatToString(b)
    ensures a == b
  {
    if a >= 10 && b >= 10 {
      var sa, sb := NatToString(a), NatToString(b);
      assert sa[..|sa| - 1] == NatToString(a / 10);
      assert sb[..|sb| - 1] == NatToString(b / 10);
      NatToStringInjective(a / 10, b / 10);
      assert sa[|sa| - 1] == Digit(a % 10);
    }
  }

  /** The display tells any two times of day apart: it determines the hour and the minute. */
  lemma FormatTimeInjective(h1: nat, m1: nat, h2: nat, m2: nat)
    requires h1 < 24 && m1 < 60 && h2 < 24 && m2 < 60
    requires FormatTime(h1, m1) == FormatTime(h2, m2)
    ensures h1 == h2 && m1 == m2
  {
    HoursFromDisplay(h1, m1, h2, m2);
    MinutesFromDisplay(h1, m1, h2, m2);
  }

  lemma HoursFromDisplay(h1: nat, m1: nat, h2: nat, m2: nat)
    requires h1 < 24 && m1 < 60 && h2 < 24 && m2 < 60
    requires FormatTime(h1, m1) == FormatTime(h2, m2)
    ensures h1 == h2
  {
    var r := FormatTime(h1, m1);
    assert (if h1 < 12 then "오전" else "오후") == r[..2] == (if h2 < 12 then "오전" else "오후");
    PeriodDetermines(h1, h2);
    assert NatToString(DisplayHour(h1)) == r[3..|r| - 3] == NatToString(DisplayHour(h2));
    NatToStringInjective(DisplayHour(h1), DisplayHour(h2));
    HourFromHalf(h1, h2);
  }

  /** The 12-hour display and the half of the day give back the hour. */
  lemma HourFromHalf(h1: nat, h2: nat)
    requires h1 < 24 && h2 < 24
    requires DisplayHour(h1) == DisplayHour(h2) && (h1 < 12) == (h2 < 12)
    ensures h1 == h2
  {
  }

  lemma PeriodDetermines(h1: nat, h2: nat)
    requires (if h1 < 12 then "오전" else "오후") == (if h2 < 12 then "오전" else "오후")
    ensures (h1 < 12) == (h2 < 12)
  {
    assert "오전"[1] != "오후"[1];
  }

  lemma MinutesFromDisplay(h1: nat, m1: nat, h2: nat, m2: nat)
    requires h1 < 24 && m1 < 60 && h2 < 24 && m2 < 60
    requires FormatTime(h1, m1) == FormatTime(h2, m2)
    ensures m1 == m2
  {
    var r := FormatTime(h1, m1);
    var t1, t2 := [Digit(m1 / 10), Digit(m1 % 10)], [Digit(m2 / 10), Digit(m2 % 10)];
    assert t1 == r[|r| - 2..] == t2;
    assert t1[0] == t2[0] && t1[1] == t2[1];
    DigitInjective(m1 / 10, m2 / 10);
    DigitInjective(m1 % 10, m2 % 10);
  }

  lemma DigitInjective(a: nat, b: nat)
    requires a < 10 && b < 10 && Digit(a) == Digit(b)
    ensures a == b
  {
  }

  // ---------------- reconnect bookkeeping ----------------

  function Pow2(n: nat): (p: nat)
    ensures p >= 1
  {
    if n == 0 then 1 else 2 * Pow2(n - 1)
  }

  /** `Math.min(RECONNECT_DELAY_BASE * Math.pow(2, attempts), 30000)`. */
  function ReconnectDelay(attempts: nat): (d: nat)
    ensures d <= RECONNECT_DELAY_CAP
    ensures d == RECONNECT_DELAY_CAP || d == RECONNECT_DELAY_BASE * Pow2(attempts)
    ensures d <= RECONNECT_DELAY_BASE * Pow2(attempts)
  {
    if RECONNECT_DELAY_BASE * Pow2(attempts) < RECONNECT_DELAY_CAP then RECONNECT_DELAY_BASE * Pow2(attempts)
    else RECONNECT_DELAY_CAP
  }

  lemma {:induction false} Pow2Monotone(a: nat, b: nat)
    requires a <= b
    ensures Pow2(a) <= Pow2(b)
    decreases b
  {
    if a < b { Pow2Monotone(a, b - 1); }
  }

  /** Backoff never shrinks while attempts grow. */
  lemma ReconnectDelayMonotone(a: nat, b: nat)
    requires a <= b
    ensures ReconnectDelay(a) <= ReconnectDelay(b)
  {
    Pow2Monotone(a, b);
  }

  /** From the fifth attempt on, the delay is the 30 s cap. */
  lemma ReconnectDelayCapped(a: nat)
    requires a >= 5
    ensures ReconnectDelay(a) == RECONNECT_DELAY_CAP
  {
    Pow2Monotone(5, a);
    assert Pow2(5) == 32;
  }

  /** The five delays a run of failed reconnects waits: 2, 4, 8, 16 and 30 seconds. */
  lemma BackoffSchedule()
    ensures [ReconnectDelay(1), ReconnectDelay(2), ReconnectDelay(3), ReconnectDelay(4), ReconnectDelay(5)]
      == [2000, 4000, 8000, 16000, 30000]
  {
    assert Pow2(5) == 32;
  }

  /** The attempt counter after one close event. */
  function CloseStep(attempts: nat): nat
  {
    if attempts < RECONNECT_MAX_ATTEMPTS then attempts + 1 else attempts
  }

  function AfterCloses(attempts: nat, closes: nat): nat
    decreases closes
  {
    if closes == 0 then attempts else AfterCloses(CloseStep(attempts), closes - 1)
  }

  /** However many times the socket closes without opening, the counter stops at five. */
  lemma {:induction false} ClosesSaturate(attempts: nat, closes: nat)
    requires attempts <= RECONNECT_MAX_ATTEMPTS
    ensures AfterCloses(attempts, closes) == if attempts + closes < RECONNECT_MAX_ATTEMPTS then attempts + closes else RECONNECT_MAX_ATTEMPTS
    decreases closes
  {
    if closes > 0 {
      ClosesSaturate(CloseStep(attempts), closes - 1);
    }
  }

  /** The reconnect state of `C2C.websocket`. */
  class ReconnectingSocket {
    var reconnectAttempts: nat
    var isConnected: bool
    var currentRoomId: Option<string>
    var currentUserId: Option<string>

    constructor ()
      ensures reconnectAttempts == 0 && !isConnected
      ensures currentRoomId.None? && currentUserId.None?
    {
      reconnectAttempts := 0;
      isConnected := false;
      currentRoomId := None;
      currentUserId := None;
    }

    /** connect: remembers the room and user; a socket constructor that throws schedules a reconnect. */
    method Connect(roomId: Option<string>, userId: Option<string>, constructorThrows: bool) returns (delay: Option<nat>)
      modifies this
      ensures currentRoomId == roomId && currentUserId == userId && isConnected == old(isConnected)
      ensures constructorThrows ==>
        reconnectAttempts == old(reconnectAttempts) + 1 && delay == Some(ReconnectDelay(reconnectAttempts))
      ensures !constructorThrows ==> reconnectAttempts == old(reconnectAttempts) && delay.None?
    {
      currentRoomId := roomId;
      currentUserId := userId;
      delay := None;
      if constructorThrows {
        var d := ScheduleReconnect();
        delay := Some(d);
      }
    }

    /** onopen: connected, and the attempt counter starts over. */
    method OnOpen()
      modifies this
      ensures isConnected && reconnectAttempts == 0
      ensures currentRoomId == old(currentRoomId) && currentUserId == old(currentUserId)
    {
      isConnected := true;
      reconnectAttempts := 0;
    }

    /** onclose: a reconnect is scheduled only while fewer than five attempts were made. */
    method OnClose() returns (delay: Option<nat>)
      modifies this
      ensures !isConnected
      ensures reconnectAttempts == CloseStep(old(reconnectAttempts))
      ensures delay.Some? <==> old(reconnectAttempts) < RECONNECT_MAX_ATTEMPTS
      ensures delay.Some? ==> delay.value == ReconnectDelay(reconnectAttempts)
      ensures currentRoomId == old(currentRoomId) && currentUserId == old(currentUserId)
    {
      isConnected := false;
      delay := None;
      if reconnectAttempts < RECONNECT_MAX_ATTEMPTS {
        var d := ScheduleReconnect();
        delay := Some(d);
      }
    }

    /** scheduleReconnect: count the attempt first, then back off by it. */
    method ScheduleReconnect() returns (delay: nat)
      modifies this
      ensures reconnectAttempts == old(reconnectAttempts) + 1
      ensures delay == ReconnectDelay(reconnectAttempts)
      ensures isConnected == old(isConnected)
      ensures currentRoomId == old(currentRoomId) && currentUserId == old(currentUserId)
    {
      reconnectAttempts := reconnectAttempts + 1;
      delay := ReconnectDelay(reconnectAttempts);
    }

    /**
     * The timeout scheduleReconnect sets, firing: connect runs again, with the
     * remembered room and user, exactly while at most five attempts were made;
     * otherwise nothing happens. `constructorThrows` is the new socket's outcome.
     */
    method OnReconnectTimer(constructorThrows: bool) returns (connects: bool, delay: Option<nat>)
      modifies this
      ensures connects <==> old(reconnectAttempts) <= RECONNECT_MAX_ATTEMPTS
      ensures currentRoomId == old(currentRoomId) && currentUserId == old(currentUserId) && isConnected == old(isConnected)
      ensures connects && constructorThrows ==>
        reconnectAttempts == old(reconnectAttempts) + 1 && delay == Some(ReconnectDelay(reconnectAttempts))
      ensures !(connects && constructorThrows) ==> reconnectAttempts == old(reconnectAttempts) && delay.None?
    {
      connects := reconnectAttempts <= RECONNECT_MAX_ATTEMPTS;
      delay := None;
      if connects {
        delay := Connect(currentRoomId, currentUserId, constructorThrows);
      }
    }
  }
}
