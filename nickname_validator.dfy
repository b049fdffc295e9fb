/**
 * The server's nickname rule (a bean-validation constraint). The violation
 * template it installs on the validation context is returned as the
 * verdict's message; a null nickname installs none.
 */
module NicknameValidator {
  import opened Wrappers
  import opened Strings

  const MIN_LENGTH: nat := 1
  const MAX_LENGTH: nat := 20

  const FORBIDDEN_NAMES: seq<string> :=
    ["admin", "administrator", "system", "root", "null", "undefined",
     "관리자", "시스템", "운영자", "서버", "bot"]

  const LENGTH_MESSAGE := "닉네임은 1-20자여야 합니다"
  const PATTERN_MESSAGE := "닉네임에는 한글, 영문, 숫자, 공백, _, -만 사용할 수 있습니다"
  const FORBIDDEN_MESSAGE := "사용할 수 없는 닉네임입니다"

  /** `\s` of java.util.regex without UNICODE_CHARACTER_CLASS: [ \t\n\x0B\f\r]. */
  predicate IsRegexSpace(c: char)
  {
    c == ' ' || c == '\t' || c == '\n' || c == '\U{000B}' || c == '\U{000C}' || c == '\r'
  }

  /** The range 가-힣 of precomposed Hangul syllables. */
  predicate IsHangulSyllable(c: char) { '가' <= c <= '힣' }

  predicate IsAsciiAlnum(c: char) { 'a' <= c <= 'z' || 'A' <= c <= 'Z' || '0' <= c <= '9' }

  /** One character of `^[가-힣a-zA-Z0-9\s_-]+$`. */
  predicate IsNicknameChar(c: char)
  {
    IsHangulSyllable(c) || IsAsciiAlnum(c) || IsRegexSpace(c) || c == '_' || c == '-'
  }

  /** The whole-string match of the nickname pattern (one or more allowed characters). */
  predicate MatchesPattern(s: string)
  {
    |s| > 0 && forall i :: 0 <= i < |s| ==> IsNicknameChar(s[i])
  }

  /**
   * On text that matches the pattern, Java's toLowerCase changes only the
   * ASCII capitals (Hangul has no case), so ToLower is exact there.
   */
  predicate NamesForbidden(lower: string, names: seq<string>)
  {
    exists j :: 0 <= j < |names| && Contains(lower, ToLower(names[j]))
  }

  /** The early-return scan over the forbidden names, from index `from` on. */
  function ScanForbidden(lower: string, names: seq<string>, from: nat): (found: bool)
    requires from <= |names|
    ensures found <==> exists j :: from <= j < |names| && Contains(lower, ToLower(names[j]))
    decreases |names| - from
  {
    if from == |names| then false
    else if Contains(lower, ToLower(names[from])) then true
    else ScanForbidden(lower, names, from + 1)
  }

  datatype Verdict = Valid | Invalid(template: Option<string>)

  /** The checks isValid runs on the trimmed value, in order. */
  function CheckTrimmed(t: string): (v: Verdict)
    ensures v == Valid <==>
      MIN_LENGTH <= Utf16Length(t) <= MAX_LENGTH && MatchesPattern(t) && !NamesForbidden(ToLower(t), FORBIDDEN_NAMES)
    ensures !(MIN_LENGTH <= Utf16Length(t) <= MAX_LENGTH) ==> v == Invalid(Some(LENGTH_MESSAGE))
    ensures MIN_LENGTH <= Utf16Length(t) <= MAX_LENGTH && !MatchesPattern(t) ==> v == Invalid(Some(PATTERN_MESSAGE))
    ensures MIN_LENGTH <= Utf16Length(t) <= MAX_LENGTH && MatchesPattern(t) && NamesForbidden(ToLower(t), FORBIDDEN_NAMES) ==>
      v == Invalid(Some(FORBIDDEN_MESSAGE))
  {
    if Utf16Length(t) < MIN_LENGTH || Utf16Length(t) > MAX_LENGTH then Invalid(Some(LENGTH_MESSAGE))
    else if !MatchesPattern(t) then Invalid(Some(PATTERN_MESSAGE))
    else if ScanForbidden(ToLower(t), FORBIDDEN_NAMES, 0) then Invalid(Some(FORBIDDEN_MESSAGE))
    else Valid
  }

  /** isValid, with the violation template it installs. */
  function Check(nickname: Option<string>): (v: Verdict)
    ensures nickname.None? ==> v == Invalid(None)
    ensures nickname.Some? ==>
      var t := JavaTrim(nickname.value);
      && (v == Valid <==>
            MIN_LENGTH <= Utf16Length(t) <= MAX_LENGTH && MatchesPattern(t) && !NamesForbidden(ToLower(t), FORBIDDEN_NAMES))
      && (!(MIN_LENGTH <= Utf16Length(t) <= MAX_LENGTH) ==> v == Invalid(Some(LENGTH_MESSAGE)))
      && (MIN_LENGTH <= Utf16Length(t) <= MAX_LENGTH && !MatchesPattern(t) ==> v == Invalid(Some(PATTERN_MESSAGE)))
      && (MIN_LENGTH <= Utf16Length(t) <= MAX_LENGTH && MatchesPattern(t) && NamesForbidden(ToLower(t), FORBIDDEN_NAMES) ==>
            v == Invalid(Some(FORBIDDEN_MESSAGE)))
  {
    match nickname
    case None => Invalid(None)
    case Some(s) => CheckTrimmed(JavaTrim(s))
  }

  predicate IsValid(nickname: Option<string>) { Check(nickname) == Valid }

  /** Surrounding whitespace never matters: the rule looks only at the trimmed value. */
  lemma TrimmedValueDecides(s: string)
    ensures IsValid(Some(s)) == IsValid(Some(JavaTrim(s)))
    ensures Check(Some(s)) == Check(Some(JavaTrim(s)))
  {
    var t := JavaTrim(s);
    JavaTrimIdempotent(s);
    assert JavaTrim(t) == t;
    assert Check(Some(t)) == CheckTrimmed(t);
    assert Check(Some(s)) == CheckTrimmed(t);
  }

  lemma NicknameCharIsBmp(c: char)
    requires IsNicknameChar(c)
    ensures c as int < 0x10000
  {
    assert '힣' as int == 0xD7A3;
  }

  /** A valid nickname is non-blank once trimmed and at most 20 UTF-16 units long. */
  lemma ValidIsNonBlank(s: string)
    requires IsValid(Some(s))
    ensures !IsBlank(s) && 1 <= |JavaTrim(s)| <= MAX_LENGTH
  {
    var t := JavaTrim(s);
    assert Check(Some(s)) == Valid;
    assert MatchesPattern(t) && Utf16Length(t) <= MAX_LENGTH;
    PatternLength(t);
    TrimEmptyIffBlank(s);
  }

  /** Every character the pattern admits is one UTF-16 unit. */
  lemma PatternLength(t: string)
    requires MatchesPattern(t)
    ensures Utf16Length(t) == |t|
  {
    forall i | 0 <= i < |t| ensures t[i] as int < 0x10000 {
      NicknameCharIsBmp(t[i]);
    }
    Utf16LengthBmp(t);
  }

  /** The forbidden names are matched as substrings, in any case: "RoBot" is refused. */
  lemma ForbiddenAsSubstringAnyCase()
    ensures Check(Some("RoBot")) == Invalid(Some(FORBIDDEN_MESSAGE))
  {
    RoBotTrims();
    RoBotIsWellFormed();
    RoBotNamesBot();
  }

  lemma RoBotTrims()
    ensures JavaTrim("RoBot") == "RoBot"
  {
    var s := "RoBot";
    assert s[0] == 'R' && s[4] == 't';
    JavaTrimKeeps(s);
  }

  lemma RoBotIsWellFormed()
    ensures MatchesPattern("RoBot") && Utf16Length("RoBot") == 5
  {
    var s := "RoBot";
    forall i | 0 <= i < |s| ensures IsAsciiAlnum(s[i]) {
      if i == 0 {} else if i == 1 {} else if i == 2 {} else if i == 3 {} else {}
    }
    PatternLength(s);
  }

  lemma RoBotNamesBot()
    ensures NamesForbidden(ToLower("RoBot"), FORBIDDEN_NAMES)
  {
    assert ToLower("RoBot") == "robot";
    assert ToLower(FORBIDDEN_NAMES[10]) == "bot";
    assert OccursAt("robot", "bot", 2);
  }

  /** An ordinary Hangul nickname is accepted. */
  lemma HangulNicknameAccepted()
    ensures IsValid(Some("홍길동"))
  {
    HangulTrims();
    HangulIsWellFormed();
    HangulNamesNothing();
  }

  lemma HangulTrims()
    ensures JavaTrim("홍길동") == "홍길동"
  {
    var s := "홍길동";
    assert s[0] == '홍' && s[2] == '동';
    JavaTrimKeeps(s);
  }

  lemma HangulIsWellFormed()
    ensures MatchesPattern("홍길동") && Utf16Length("홍길동") == 3
  {
    var s := "홍길동";
    forall i | 0 <= i < |s| ensures IsHangulSyllable(s[i]) {
      if i == 0 {} else if i == 1 {} else {}
    }
    PatternLength(s);
  }

  lemma HangulNamesNothing()
    ensures !NamesForbidden(ToLower("홍길동"), FORBIDDEN_NAMES)
  {
    var s := "홍길동";
    assert ToLower(s) == s;
    forall j | 0 <= j < |FORBIDDEN_NAMES| ensures !Contains(s, ToLower(FORBIDDEN_NAMES[j])) {
      var n := ToLower(FORBIDDEN_NAMES[j]);
      forall i | 0 <= i <= |s| ensures !OccursAt(s, n, i) {
        if 0 <= i <= |s| - |n| {
          assert s[i..i + |n|][0] == s[i];
        }
      }
    }
  }
}
