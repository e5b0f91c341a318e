/**
 Stream entry IDs and `nextStreamID` (`internal/queue/queue.go`).

 An ID is `<milliseconds>-<sequence>`.  `NextStreamId` works on the text, with 64-bit signed
 parsing and wrap-around; on canonical text it is the least ID above its argument whenever that
 fits, and otherwise a text that is no ID at all.
 */
module StreamIds {
  import opened Wrappers

  datatype Id = Id(ms: nat, num: nat)

  const ZERO := Id(0, 0)

  predicate Below(a: Id, b: Id) {
    a.ms < b.ms || (a.ms == b.ms && a.num < b.num)
  }

  predicate AtMost(a: Id, b: Id) {
    a == b || Below(a, b)
  }

  const TWO63: int := 0x8000_0000_0000_0000

  /** The IDs that Redis can hold. */
  predicate Fits(id: Id) {
    id.ms < 2 * TWO63 && id.num < 2 * TWO63
  }

  // ---------- 64-bit integers as text ----------

  /** The value that a signed 64-bit addition leaves. */
  function Wrap(x: int): int {
    (x + TWO63) % (2 * TWO63) - TWO63
  }

  function Digit(d: nat): char
    requires d < 10
  {
    '0' + d as char
  }

  function Digits(n: nat): string {
    if n < 10 then [Digit(n)] else Digits(n / 10) + [Digit(n % 10)]
  }

  /** `%d`. */
  function Format(x: int): string {
    if x < 0 then "-" + Digits(-x) else Digits(x)
  }

  function ParseDigits(s: string): Option<nat> {
    if s == "" || !IsDigit(s[|s| - 1]) then None
    else
      var d := (s[|s| - 1] - '0') as nat;
      if |s| == 1 then Some(d)
      else match ParseDigits(s[..|s| - 1])
        case None => None
        case Some(n) => Some(10 * n + d)
  }

  /** `strconv.ParseInt(s, 10, 64)`. */
  function ParseInt(s: string): Option<int> {
    var signed := s != "" && (s[0] == '-' || s[0] == '+');
    match ParseDigits(if signed then s[1..] else s)
    case None => None
    case Some(n) =>
      var x: int := if signed && s[0] == '-' then -(n as int) else n;
      if -TWO63 <= x < TWO63 then Some(x) else None
  }

  /** Numbers are read in base ten, the last digit for the least. */
  lemma ParseLast(t: string)
    requires t != "" && IsDigit(t[|t| - 1]) && (|t| == 1 || ParseDigits(t[..|t| - 1]).Some?)
    ensures var d := t[|t| - 1] as int - '0' as int;
      ParseDigits(t) == Some(if |t| == 1 then d else 10 * ParseDigits(t[..|t| - 1]).value + d)
  {
    assert (t[|t| - 1] - '0') as int == t[|t| - 1] as int - '0' as int;
  }

  lemma {:induction false} DigitsParse(n: nat)
    ensures Digits(n) != "" && (forall i :: 0 <= i < |Digits(n)| ==> IsDigit(Digits(n)[i]))
    ensures ParseDigits(Digits(n)) == Some(n)
  {
    if n >= 10 {
      DigitsParse(n / 10);
      assert Digits(n)[..|Digits(n)| - 1] == Digits(n / 10);
    }
  }

  lemma FormatParse(x: int)
    ensures ParseInt(Format(x)) == if -TWO63 <= x < TWO63 then Some(x) else None
  {
    DigitsParse(if x < 0 then -x else x);
    if x < 0 {
      assert Format(x)[1..] == Digits(-x);
    } else {
      assert IsDigit(Format(x)[0]);
    }
  }

  // ---------- IDs as text ----------

  /** The greatest position of `c`, or -1. */
  function LastIndex(s: string, c: char): (i: int)
    ensures -1 <= i < |s|
    ensures i >= 0 ==> s[i] == c
    ensures forall j :: i < j < |s| ==> s[j] != c
  {
    if s == "" then -1 else if s[|s| - 1] == c then |s| - 1 else LastIndex(s[..|s| - 1], c)
  }

  /** The least position of `c`, or -1. */
  function Index(s: string, c: char): (i: int)
    ensures -1 <= i < |s|
    ensures i >= 0 ==> s[i] == c
    ensures forall j :: 0 <= j < (if i >= 0 then i else |s|) ==> s[j] != c
  {
    if s == "" then -1
    else if s[0] == c then 0
    else
      var i := Index(s[1..], c);
      assert forall j :: 1 <= j < |s| ==> s[j] == s[1..][j - 1];
      if i >= 0 then i + 1 else -1
  }

  function Render(id: Id): string {
    Format(id.ms) + "-" + Format(id.num)
  }

  /** Reads an ID back; Redis refuses a text that is not two unsigned 64-bit numbers. */
  function ReadId(s: string): Option<Id> {
    var dash := LastIndex(s, '-');
    if dash <= 0 || dash == |s| - 1 then None
    else match (ParseDigits(s[..dash]), ParseDigits(s[dash + 1..]))
      case (Some(ms), Some(num)) => if Fits(Id(ms, num)) then Some(Id(ms, num)) else None
      case _ => None
  }

  /** `nextStreamID`. */
  function NextStreamId(id: string): string {
    var dash := LastIndex(id, '-');
    if dash <= 0 || dash == |id| - 1 then ""
    else
      match (ParseInt(id[..dash]), ParseInt(id[dash + 1..]))
      case (Some(ms), Some(num)) =>
        if ms < 0 || num < 0 then "" else Format(ms) + "-" + Format(Wrap(num + 1))
      case _ => ""
  }

  lemma DigitsHaveNoDash(n: nat, s: string)
    ensures var text := s + "-" + Digits(n);
      LastIndex(text, '-') == |s| && text[..|s|] == s && text[|s| + 1..] == Digits(n)
  {
    DigitsParse(n);
    var text := s + "-" + Digits(n);
    assert text[|s|] == '-';
    forall j | |s| < j < |text| ensures text[j] != '-' {
      assert text[j] == Digits(n)[j - |s| - 1];
    }
    assert text[..|s|] == s && text[|s| + 1..] == Digits(n);
  }

  lemma RenderRead(id: Id)
    ensures ReadId(Render(id)) == if Fits(id) then Some(id) else None
  {
    DigitsHaveNoDash(id.num, Format(id.ms));
    DigitsParse(id.ms);
    DigitsParse(id.num);
  }

  /** The next ID, when the computation neither fails nor overflows. */
  function Successor(id: Id): Option<Id> {
    if id.ms < TWO63 && id.num < TWO63 - 1 then Some(Id(id.ms, id.num + 1)) else None
  }

  lemma NextStreamIdText(id: Id)
    ensures NextStreamId(Render(id)) ==
      if id.ms < TWO63 && id.num < TWO63 then Format(id.ms) + "-" + Format(Wrap(id.num + 1)) else ""
  {
    DigitsHaveNoDash(id.num, Format(id.ms));
    DigitsParse(id.ms);
    FormatParse(id.ms);
    FormatParse(id.num);
    DigitsParse(id.num);
    assert Format(id.num) == Digits(id.num) && Format(id.ms) == Digits(id.ms);
    hide Format, Digits, Wrap, ParseInt;
  }

  lemma WrapSmall(x: int)
    requires 0 <= x < TWO63
    ensures Wrap(x) == x
  {
  }

  lemma DashesUnread(s: string, n: nat)
    requires s != ""
    ensures ReadId(s + "-" + "-" + Digits(n)) == None
  {
    var text := s + "-" + "-" + Digits(n);
    assert text == (s + "-") + "-" + Digits(n);
    DigitsHaveNoDash(n, s + "-");
    assert !IsDigit((s + "-")[|s|]);
  }

  lemma MinusText()
    ensures Format(-TWO63) == "-" + Digits(TWO63)
  {
    hide Digits;
  }

  /** The sequence number wraps to a negative number: what comes out has two dashes in a row. */
  lemma Overflowed(ms: nat)
    ensures ReadId(Format(ms) + "-" + Format(-TWO63)) == None
  {
    DigitsParse(ms);
    assert Format(ms) == Digits(ms);
    hide *;
    MinusText();
    DashesUnread(Format(ms), TWO63);
    assert Format(ms) + "-" + ("-" + Digits(TWO63)) == Format(ms) + "-" + "-" + Digits(TWO63);
  }

  lemma SuccessorCases(id: Id)
    ensures match Successor(id)
      case Some(next) => id.ms < TWO63 && id.num < TWO63 && next == Id(id.ms, Wrap(id.num + 1)) && Fits(next)
      case None => id.ms < TWO63 && id.num < TWO63 ==> Wrap(id.num + 1) == -TWO63
  {
    if id.num < TWO63 - 1 { WrapSmall(id.num + 1); }
    if id.num == TWO63 - 1 { assert Wrap(TWO63) == -TWO63; }
  }

  /** On the text of an ID, `nextStreamID` gives the text of its successor, or a text that is no ID. */
  lemma NextStreamIdIs(id: Id)
    ensures ReadId(NextStreamId(Render(id))) == Successor(id)
    ensures Successor(id).Some? ==> NextStreamId(Render(id)) == Render(Successor(id).value)
  {
    NextStreamIdText(id);
    SuccessorCases(id);
    Overflowed(id.ms);
    assert ReadId("") == None;
    if Successor(id).Some? { RenderRead(Successor(id).value); }
    hide Format, Wrap, NextStreamId, ReadId, Successor, Fits;
  }

  /** The successor is the least ID strictly above. */
  lemma SuccessorLeast(id: Id, x: Id)
    requires Successor(id).Some?
    ensures Below(x, Successor(id).value) <==> AtMost(x, id)
  {
  }

  // ---------- Members of the retry set ----------

  /** A member is the due time, a colon, and the payload. */
  function MemberText(dueAt: int, payload: string): string {
    Format(dueAt) + ":" + payload
  }

  function PayloadOfMember(member: string): string {
    var i := Index(member, ':');
    if i >= 0 then member[i + 1..] else member
  }

  /** The payload comes back whatever colons it holds, and equal members have equal parts. */
  lemma MemberRoundTrip(dueAt: int, payload: string)
    ensures PayloadOfMember(MemberText(dueAt, payload)) == payload
    ensures MemberText(dueAt, payload)[..Index(MemberText(dueAt, payload), ':')] == Format(dueAt)
  {
    var text, f := MemberText(dueAt, payload), Format(dueAt);
    DigitsParse(if dueAt < 0 then -dueAt else dueAt);
    forall j | 0 <= j < |f| ensures text[j] != ':' {
      assert text[j] == f[j];
    }
    assert text[|f|] == ':';
    assert Index(text, ':') == |f|;
  }
}
