/** A parsed pipeline document and its compact JSON serialisation (no whitespace,
    members in their original order), as produced by a standard JSON stringifier. */
module JsonValue {
  import opened Wrappers

  datatype Value =
    | Null
    | Bool(b: bool)
    | Num(n: int)
    | Str(s: string)
    | Arr(items: seq<Value>)
    | Obj(members: seq<Member>)

  datatype Member = Member(key: string, value: Value)

  function HexDigit(d: nat): char
    requires d < 16
  {
    "0123456789abcdef"[d]
  }

  /** The JSON escape of one character: quote, backslash and control characters. */
  function EscapeChar(c: char): (r: string)
    ensures |r| >= 1
    ensures (c != '"' && c != '\\' && c >= ' ') <==> r == [c]
  {
    if c == '"' then "\\\""
    else if c == '\\' then "\\\\"
    else if c as int == 8 then "\\b"
    else if c as int == 12 then "\\f"
    else if c == '\n' then "\\n"
    else if c == '\r' then "\\r"
    else if c == '\t' then "\\t"
    else if c < ' ' then "\\u00" + [HexDigit(c as int / 16), HexDigit(c as int % 16)]
    else [c]
  }

  /** A string that needs no escaping. */
  predicate Plain(s: string)
  {
    forall i :: 0 <= i < |s| ==> s[i] != '"' && s[i] != '\\' && s[i] >= ' '
  }

  /** The strings of `parts`, one after another. */
  function Concat(parts: seq<string>): string
  {
    if |parts| == 0 then "" else parts[0] + Concat(parts[1..])
  }

  /** Every character escaped, in order. */
  function Escape(s: string): string
  {
    Concat(seq(|s|, i requires 0 <= i < |s| => EscapeChar(s[i])))
  }

  lemma {:induction false} ConcatSingletons(s: string, parts: seq<string>)
    requires |parts| == |s| && forall i :: 0 <= i < |s| ==> parts[i] == [s[i]]
    ensures Concat(parts) == s
  {
    if |s| > 0 {
      ConcatSingletons(s[1..], parts[1..]);
    }
  }

  /** A string with nothing to escape is written as it is. */
  lemma EscapePlain(s: string)
    requires Plain(s)
    ensures Escape(s) == s
  {
    ConcatSingletons(s, seq(|s|, i requires 0 <= i < |s| => EscapeChar(s[i])));
  }

  lemma QuotePlain(s: string)
    requires Plain(s)
    ensures Quote(s) == "\"" + s + "\""
  {
    EscapePlain(s);
  }

  function Quote(s: string): string
  {
    "\"" + Escape(s) + "\""
  }

  /** The character of one decimal digit. */
  function DigitChar(d: nat): (c: char)
    requires d < 10
    ensures '0' <= c <= '9' && c as int - '0' as int == d
  {
    ('0' as int + d) as char
  }

  /** The number a string of decimal digits spells, read left to right. */
  function DecimalValue(s: string): int
  {
    if s == [] then 0 else 10 * DecimalValue(s[..|s| - 1]) + (s[|s| - 1] as int - '0' as int)
  }

  /** Decimal digits of a natural number, most significant first, with no leading zero. */
  function Digits(n: nat): (r: string)
    ensures |r| >= 1
    ensures forall i :: 0 <= i < |r| ==> '0' <= r[i] <= '9'
    ensures DecimalValue(r) == n
    ensures r[0] == '0' <==> n == 0
    ensures n == 0 ==> r == "0"
  {
    if n < 10 then [DigitChar(n)]
    else
      var high := Digits(n / 10);
      var r := high + [DigitChar(n % 10)];
      assert r[..|r| - 1] == high;
      r
  }

  /** The compact JSON text of a value; its first character tells which kind of value it
      is, and an array or object text closes with its bracket. */
  function Compact(v: Value): (r: string)
    ensures |r| >= 1
    ensures r[0] == '{' <==> v.Obj?
    ensures r[0] == '[' <==> v.Arr?
    ensures r[0] == '"' <==> v.Str?
    ensures (r[0] == '-' || '0' <= r[0] <= '9') <==> v.Num?
    ensures v.Obj? ==> r[|r| - 1] == '}'
    ensures v.Arr? ==> r[|r| - 1] == ']'
  {
    match v
    case Null => "null"
    case Bool(b) => if b then "true" else "false"
    case Num(n) => if n < 0 then "-" + Digits(-n) else Digits(n)
    case Str(s) => Quote(s)
    case Arr(items) => "[" + CompactItems(items) + "]"
    case Obj(members) => "{" + CompactMembers(members) + "}"
  }

  /** Array elements, comma separated. */
  function CompactItems(items: seq<Value>): string
  {
    if items == [] then ""
    else if |items| == 1 then Compact(items[0])
    else Compact(items[0]) + "," + CompactItems(items[1..])
  }

  /** Object members `"key":value`, comma separated. */
  function CompactMembers(members: seq<Member>): string
  {
    if members == [] then ""
    else if |members| == 1 then CompactMember(members[0])
    else CompactMember(members[0]) + "," + CompactMembers(members[1..])
  }

  function CompactMember(m: Member): string
  {
    Quote(m.key) + ":" + Compact(m.value)
  }

  /** Appending an element to a non-empty array appends a comma and its text. */
  lemma {:induction false} CompactItemsAppend(items: seq<Value>, last: Value)
    requires items != []
    ensures CompactItems(items + [last]) == CompactItems(items) + "," + Compact(last)
  {
    var whole := items + [last];
    assert |whole| > 1 && whole[0] == items[0];
    assert CompactItems(whole) == Compact(items[0]) + "," + CompactItems(whole[1..]);
    if |items| == 1 {
      assert whole[1..] == [last];
    } else {
      assert whole[1..] == items[1..] + [last];
      CompactItemsAppend(items[1..], last);
      assert CompactItems(items) == Compact(items[0]) + "," + CompactItems(items[1..]);
    }
  }

  /** An object with one member. */
  lemma CompactOneMember(m: Member)
    ensures Compact(Obj([m])) == "{" + CompactMember(m) + "}"
  {
    assert CompactMembers([m]) == CompactMember(m);
  }

  /** An object with two members. */
  lemma CompactTwoMembers(m1: Member, m2: Member)
    ensures Compact(Obj([m1, m2])) == "{" + CompactMember(m1) + "," + CompactMember(m2) + "}"
  {
    assert [m1, m2][1..] == [m2];
    assert CompactMembers([m2]) == CompactMember(m2);
    assert CompactMembers([m1, m2]) == CompactMember(m1) + "," + CompactMember(m2);
  }

  /** The index of the first member named `key`, if there is one. */
  function FindKey(members: seq<Member>, key: string): (r: Option<nat>)
    ensures r.Some? ==> r.value < |members| && members[r.value].key == key
    ensures r.Some? ==> forall k :: 0 <= k < r.value ==> members[k].key != key
    ensures r.None? ==> forall k :: 0 <= k < |members| ==> members[k].key != key
  {
    if members == [] then None
    else if members[0].key == key then Some(0)
    else match FindKey(members[1..], key)
      case None => None
      case Some(i) => Some(i + 1)
  }

  /** The value of the first member named `key`, if there is one. */
  function Lookup(members: seq<Member>, key: string): (r: Option<Value>)
    ensures r.Some? <==> exists k :: 0 <= k < |members| && members[k].key == key
    ensures r.Some? ==> exists k :: (0 <= k < |members| && members[k] == Member(key, r.value) &&
                                     forall j :: 0 <= j < k ==> members[j].key != key)
  {
    match FindKey(members, key)
    case Some(i) => Some(members[i].value)
    case None => None
  }
}
