/**
 * Event payloads as the views receive them: string entries, plus the
 * `"value"` entry of a draft update, which the client sends either as a
 * string or as a list of strings.
 */
module Payloads {
  import opened Options

  datatype Arg = Text(s: string) | List(items: seq<string>)

  datatype Payload = Payload(strings: map<string, string>, value: Option<Arg>)

  /** `payload.get(name, default)` for a string entry. */
  function Get(p: Payload, name: string, default: string): (v: string)
    ensures name in p.strings ==> v == p.strings[name]
    ensures name !in p.strings ==> v == default
  {
    if name in p.strings then p.strings[name] else default
  }

  /** `payload.get("item_id", "") or payload.get("card_id", "")`: an empty item id falls back to the card id. */
  function ItemIdOf(p: Payload): (id: string)
    ensures Get(p, "item_id", "") != "" ==> id == Get(p, "item_id", "")
    ensures Get(p, "item_id", "") == "" ==> id == Get(p, "card_id", "")
  {
    var itemId := Get(p, "item_id", "");
    if itemId != "" then itemId else Get(p, "card_id", "")
  }

  /**
   * The draft text of an `update_draft` event: the first element of a list,
   * a string as is, `""` when absent; `None` where Python's `value_list[0]`
   * raises on an empty list.
   */
  function DraftText(p: Payload): (v: Option<string>)
    ensures p.value == None ==> v == Some("")
    ensures p.value.Some? && p.value.value.Text? ==> v == Some(p.value.value.s)
    ensures p.value.Some? && p.value.value.List? && |p.value.value.items| > 0 ==> v == Some(p.value.value.items[0])
    ensures v == None <==> p.value == Some(List([]))
  {
    match p.value.GetOr(List([""]))
    case Text(s) => Some(s)
    case List(items) => if |items| == 0 then None else Some(items[0])
  }

  predicate IsDigit(c: char)
  {
    '0' <= c <= '9'
  }

  predicate AllDigits(s: string)
  {
    forall i | 0 <= i < |s| :: IsDigit(s[i])
  }

  /** The value of a string of decimal digits, most significant first. */
  function DigitsValue(s: string): (n: nat)
    requires AllDigits(s)
    ensures |s| == 1 ==> n == (s[0] as int) - ('0' as int)
  {
    if s == [] then 0
    else DigitsValue(s[..|s| - 1]) * 10 + ((s[|s| - 1] as int) - ('0' as int))
  }

  /** A decimal integer literal: an optional sign, then at least one digit. */
  predicate IsDecimal(s: string)
  {
    if |s| > 0 && (s[0] == '-' || s[0] == '+') then |s| > 1 && AllDigits(s[1..])
    else |s| > 0 && AllDigits(s)
  }

  /** Python's `int(s)` on a decimal literal; `None` where it raises `ValueError`. */
  function ParseInt(s: string): (r: Option<int>)
    ensures r.Some? <==> IsDecimal(s)
    ensures r.Some? && AllDigits(s) ==> r.value == DigitsValue(s)
    ensures r.Some? && s[0] == '-' ==> r.value == -(DigitsValue(s[1..]) as int)
    ensures r.Some? && s[0] == '+' ==> r.value == DigitsValue(s[1..])
  {
    if |s| > 0 && s[0] == '-' then
      (if |s| > 1 && AllDigits(s[1..]) then Some(-(DigitsValue(s[1..]) as int)) else None)
    else if |s| > 0 && s[0] == '+' then
      (if |s| > 1 && AllDigits(s[1..]) then Some(DigitsValue(s[1..])) else None)
    else if |s| > 0 && AllDigits(s) then Some(DigitsValue(s))
    else None
  }

  /** `int(payload.get(name, 0))`: 0 when absent, `None` when the entry is not an integer. */
  function IntArg(p: Payload, name: string): (r: Option<int>)
    ensures name !in p.strings ==> r == Some(0)
    ensures name in p.strings ==> r == ParseInt(p.strings[name])
  {
    if name in p.strings then ParseInt(p.strings[name]) else Some(0)
  }

  /** The digit character for `0 <= d < 10`. */
  function DigitChar(d: nat): (c: char)
    requires d < 10
    ensures IsDigit(c) && (c as int) - ('0' as int) == d
  {
    ('0' as int + d) as char
  }

  /** The decimal digits of `n`, most significant first, without leading zeros. */
  function Digits(n: nat): (s: string)
    ensures |s| > 0 && AllDigits(s)
  {
    if n < 10 then [DigitChar(n)] else Digits(n / 10) + [DigitChar(n % 10)]
  }

  /** Python's `str(n)` for an integer: a minus sign for negatives, then the digits. */
  function Decimal(n: int): string
  {
    if n < 0 then "-" + Digits(-n) else Digits(n)
  }

  /** Reading back the digits of `n` gives `n`. */
  lemma {:induction false} DigitsValueOfDigits(n: nat)
    ensures DigitsValue(Digits(n)) == n
  {
    var s := Digits(n);
    if n >= 10 {
      assert s[..|s| - 1] == Digits(n / 10);
      DigitsValueOfDigits(n / 10);
    }
  }

  /** `int(str(n)) == n`: the parser reads back every integer the client can render. */
  lemma ParseDecimal(n: int)
    ensures ParseInt(Decimal(n)) == Some(n)
  {
    if n < 0 {
      assert Decimal(n)[1..] == Digits(-n);
      DigitsValueOfDigits(-n);
    } else {
      DigitsValueOfDigits(n);
    }
  }

  /**
   * An integer argument reads back the integer whose rendering the payload
   * carries, and 0 when the entry is missing.
   */
  lemma IntArgOfDecimal(p: Payload, name: string, n: int)
    ensures name in p.strings && p.strings[name] == Decimal(n) ==> IntArg(p, name) == Some(n)
    ensures name !in p.strings ==> IntArg(p, name) == Some(0)
  {
    ParseDecimal(n);
  }
}
