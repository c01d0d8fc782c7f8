/**
  Form validation of the publisher step's configuration fields.

  Every field validator of the plugin classifies a string by its length alone:
  an empty value is an error, a value shorter than four characters draws a
  warning, anything longer is accepted. The length is Java's `String.length()`,
  which counts UTF-16 code units: a character outside the Basic Multilingual
  Plane counts twice. `ValidateString` is the shared utility
  (messages from the plugin's localized bundle); the four `DoCheck*` functions
  are the descriptor's per-field callbacks (messages written inline).
 */
module Validation {

  /** Values shorter than this, but not empty, are suspicious. */
  const MinComfortableLength: nat := 4

  /** The number of UTF-16 code units that encode `c`. */
  function Utf16Units(c: char): nat {
    if c as int >= 0x1_0000 then 2 else 1
  }

  /** Java's `String.length()` of `s`: its length in UTF-16 code units. */
  function Utf16Length(s: string): (n: nat)
    ensures |s| <= n <= 2 * |s|
    ensures n == 0 <==> |s| == 0
    decreases |s|
  {
    if |s| == 0 then 0 else Utf16Units(s[0]) + Utf16Length(s[1..])
  }

  /** The UTF-16 length of a concatenation is the sum of the lengths. */
  lemma {:induction false} Utf16LengthAppend(s: string, t: string)
    ensures Utf16Length(s + t) == Utf16Length(s) + Utf16Length(t)
    decreases |s|
  {
    if |s| != 0 {
      assert (s + t)[0] == s[0];
      assert (s + t)[1..] == s[1..] + t;
      Utf16LengthAppend(s[1..], t);
    } else {
      assert s + t == t;
    }
  }

  /** The text carried by an error or a warning. */
  datatype Message =
    | Text(text: string)          // a literal message written in the source
    | Localized(key: string)      // an entry of the plugin's message bundle

  /** The host's form-validation answer. */
  datatype FormValidation =
    | ValidationError(message: Message)
    | ValidationWarning(message: Message)
    | ValidationOk

  /** The three kinds of answer, messages forgotten. */
  datatype Kind = Error | Warning | Ok

  function KindOf(v: FormValidation): Kind {
    match v
    case ValidationError(_) => Error
    case ValidationWarning(_) => Warning
    case ValidationOk => Ok
  }

  /** Severity order used to compare answers: error < warning < ok. */
  function Rank(k: Kind): nat {
    match k
    case Error => 0
    case Warning => 1
    case Ok => 2
  }

  /**
    The length rule every validator follows, parameterised by the two messages
    it reports.
   */
  function CheckLength(value: string, whenEmpty: Message, whenShort: Message): (r: FormValidation)
    ensures r.ValidationError? <==> value == []
    ensures r.ValidationWarning? <==> 0 < Utf16Length(value) < MinComfortableLength
    ensures r.ValidationOk? <==> MinComfortableLength <= Utf16Length(value)
    ensures r.ValidationError? ==> r.message == whenEmpty
    ensures r.ValidationWarning? ==> r.message == whenShort
  {
    var n := Utf16Length(value);
    if n == 0 then ValidationError(whenEmpty)
    else if n < MinComfortableLength then ValidationWarning(whenShort)
    else ValidationOk
  }

  const ValueIsAbsent := Localized("ValueIsAbsent")
  const ValueIsTooShort := Localized("ValueIsTooShort")

  /** The shared utility validator. */
  function ValidateString(toValidate: string): (r: FormValidation)
    ensures r.ValidationError? <==> toValidate == []
    ensures r.ValidationWarning? <==> 0 < Utf16Length(toValidate) < MinComfortableLength
    ensures r.ValidationOk? <==> MinComfortableLength <= Utf16Length(toValidate)
    ensures r.ValidationError? ==> r.message == ValueIsAbsent
    ensures r.ValidationWarning? ==> r.message == ValueIsTooShort
  {
    CheckLength(toValidate, ValueIsAbsent, ValueIsTooShort)
  }

  /** The warning text shared by the four descriptor callbacks. */
  const PathTooShort := Text("Не слишком ли короткий путь?")

  const ConfigFileRequired := Text("Пожалуйста, введите путь к конфигурационному файлу паблишера")
  const RunnableRequired := Text("Пожалуйста, введите путь к файлу паблишера")
  const AllureReportUrlRequired := Text("Пожалуйста, введите относительный url allure отчета. Например, allure")
  const ArtifactsUrlRequired := Text("Пожалуйста, введите относительный url к логам в аритфактах билда. Например, target/allure-report/logs")

  function DoCheckRunnableConfigFile(value: string): (r: FormValidation)
    ensures r.ValidationError? <==> value == []
    ensures r.ValidationWarning? <==> 0 < Utf16Length(value) < MinComfortableLength
    ensures r.ValidationOk? <==> MinComfortableLength <= Utf16Length(value)
    ensures r.ValidationError? ==> r.message == ConfigFileRequired
    ensures r.ValidationWarning? ==> r.message == PathTooShort
  {
    CheckLength(value, ConfigFileRequired, PathTooShort)
  }

  function DoCheckRunnable(value: string): (r: FormValidation)
    ensures r.ValidationError? <==> value == []
    ensures r.ValidationWarning? <==> 0 < Utf16Length(value) < MinComfortableLength
    ensures r.ValidationOk? <==> MinComfortableLength <= Utf16Length(value)
    ensures r.ValidationError? ==> r.message == RunnableRequired
    ensures r.ValidationWarning? ==> r.message == PathTooShort
  {
    CheckLength(value, RunnableRequired, PathTooShort)
  }

  function DoCheckAllureReportUrl(value: string): (r: FormValidation)
    ensures r.ValidationError? <==> value == []
    ensures r.ValidationWarning? <==> 0 < Utf16Length(value) < MinComfortableLength
    ensures r.ValidationOk? <==> MinComfortableLength <= Utf16Length(value)
    ensures r.ValidationError? ==> r.message == AllureReportUrlRequired
    ensures r.ValidationWarning? ==> r.message == PathTooShort
  {
    CheckLength(value, AllureReportUrlRequired, PathTooShort)
  }

  function DoCheckArtifactsUrl(value: string): (r: FormValidation)
    ensures r.ValidationError? <==> value == []
    ensures r.ValidationWarning? <==> 0 < Utf16Length(value) < MinComfortableLength
    ensures r.ValidationOk? <==> MinComfortableLength <= Utf16Length(value)
    ensures r.ValidationError? ==> r.message == ArtifactsUrlRequired
    ensures r.ValidationWarning? ==> r.message == PathTooShort
  {
    CheckLength(value, ArtifactsUrlRequired, PathTooShort)
  }

  /** Exactly one of the three answers holds for every string. */
  lemma ExactlyOneKind(s: string)
    ensures KindOf(ValidateString(s)) == Error <==> Utf16Length(s) == 0
    ensures KindOf(ValidateString(s)) == Warning <==> 0 < Utf16Length(s) < MinComfortableLength
    ensures KindOf(ValidateString(s)) == Ok <==> Utf16Length(s) >= MinComfortableLength
  {
  }

  /** The answer depends on the UTF-16 length of the value only. */
  lemma DependsOnlyOnLength(s: string, t: string)
    requires Utf16Length(s) == Utf16Length(t)
    ensures ValidateString(s) == ValidateString(t)
    ensures DoCheckRunnableConfigFile(s) == DoCheckRunnableConfigFile(t)
    ensures DoCheckRunnable(s) == DoCheckRunnable(t)
    ensures DoCheckAllureReportUrl(s) == DoCheckAllureReportUrl(t)
    ensures DoCheckArtifactsUrl(s) == DoCheckArtifactsUrl(t)
  {
  }

  /** The utility and the four descriptor callbacks agree on the kind of every answer. */
  lemma CallbacksAgreeWithUtility(s: string)
    ensures KindOf(DoCheckRunnableConfigFile(s)) == KindOf(ValidateString(s))
    ensures KindOf(DoCheckRunnable(s)) == KindOf(ValidateString(s))
    ensures KindOf(DoCheckAllureReportUrl(s)) == KindOf(ValidateString(s))
    ensures KindOf(DoCheckArtifactsUrl(s)) == KindOf(ValidateString(s))
  {
  }

  /** A value with a greater UTF-16 length never gets a more severe answer. */
  lemma MonotoneInLength(s: string, t: string)
    requires Utf16Length(s) <= Utf16Length(t)
    ensures Rank(KindOf(ValidateString(s))) <= Rank(KindOf(ValidateString(t)))
  {
  }

  /** A value accepted stays accepted whatever is appended to it. */
  lemma ExtensionKeepsAcceptance(s: string, suffix: string)
    requires ValidateString(s).ValidationOk?
    ensures ValidateString(s + suffix).ValidationOk?
  {
    Utf16LengthAppend(s, suffix);
  }

  /**
    Three characters, one of them outside the Basic Multilingual Plane, make
    four UTF-16 units and are accepted; three plain characters draw a warning.
   */
  lemma SupplementaryCharacterCountsTwice()
    ensures ValidateString("ab\U{1F600}").ValidationOk?
    ensures ValidateString("abc").ValidationWarning?
  {
    assert Utf16Length("ab\U{1F600}") == 4 by {
      var s := "ab\U{1F600}";
      assert s[1..][1..][1..] == [];
      assert Utf16Units(s[2]) == 2;
    }
    assert Utf16Length("abc") == 3 by {
      var s := "abc";
      assert s[1..][1..][1..] == [];
    }
  }
}
