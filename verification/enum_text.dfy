/** `parse_enum`: reading an enum member back from its `Class.MEMBER` text,
    the form a saved ledger holds its tags in. */
module EnumText {
  import opened Results
  import opened Text
  import opened Entries

  /** A spreadsheet cell: text, or anything else (a number, NaN, a date). */
  datatype Cell = Str(s: string) | NonStr

  /** An enum class as `parse_enum` sees it: its `__name__` and the lookup
      `enum_class[member_name]`. */
  datatype EnumClass<T> = EnumClass(name: string, members: map<string, T>)

  /** What is left of `s` after the literal prefix `p`, if `s` starts with it. */
  function StripPrefix(p: string, s: string): (r: Option<string>)
    ensures r.Some? <==> |p| <= |s| && s[..|p|] == p
    ensures r.Some? ==> r.value == s[|p|..]
    decreases |p|
  {
    if |p| == 0 then Some(s)
    else if |s| == 0 || s[0] != p[0] then None
    else
      assert |p| <= |s| ==> (s[..|p|] == p <==> s[1..][..|p| - 1] == p[1..]);
      StripPrefix(p[1..], s[1..])
  }

  /** `parse_enum(enum_class, value)`: None for a non-string or empty value;
      otherwise the whole value must match `^Name\.(\w+)$`, and the captured
      name must be a member (a KeyError gives None). */
  function ParseEnum<T>(cls: EnumClass<T>, v: Cell): (r: Option<T>)
    ensures r.Some? <==>
      && v.Str?
      && |cls.name| < |v.s|
      && v.s[..|cls.name| + 1] == cls.name + "."
      && IsWord(v.s[|cls.name| + 1..])
      && v.s[|cls.name| + 1..] in cls.members
    ensures r.Some? ==> r.value == cls.members[v.s[|cls.name| + 1..]]
  {
    match v
    case NonStr => None
    case Str(s) =>
      if |s| == 0 then None
      else match StripPrefix(cls.name + ".", s)
        case None => None
        case Some(m) => if IsWord(m) && m in cls.members then Some(cls.members[m]) else None
  }

  /** The text of a member under its class name reads back as that member. */
  lemma ParseEnumRoundTrip<T>(cls: EnumClass<T>, m: string)
    requires IsWord(m) && m in cls.members
    ensures ParseEnum(cls, Str(cls.name + "." + m)) == Some(cls.members[m])
  {
    var s := cls.name + "." + m;
    assert s[..|cls.name| + 1] == cls.name + "." && s[|cls.name| + 1..] == m;
  }

  /** A text naming another class is refused, whatever follows the dot:
      class names hold no dot, so the first dot ends the name. */
  lemma ParseEnumOtherClass<T>(cls: EnumClass<T>, other: string, m: string)
    requires '.' !in other && '.' !in cls.name && other != cls.name
    ensures ParseEnum(cls, Str(other + "." + m)).None?
  {
    var s := other + "." + m;
    var n := |cls.name|;
    if n < |s| {
      if n < |other| {
        assert s[..n + 1][n] == other[n] && other[n] in other;
        assert (cls.name + ".")[n] == '.';
      } else if n > |other| {
        assert s[..n + 1][|other|] == '.';
        assert (cls.name + ".")[|other|] == cls.name[|other|] && cls.name[|other|] in cls.name;
      } else {
        assert s[..n + 1][..n] == other;
        assert (cls.name + ".")[..n] == cls.name;
      }
    }
  }

  const OpTypeClass := EnumClass("OpType", map["BUY" := BUY, "SELL" := SELL])

  const ConversionClass := EnumClass("CurrencyConversionType",
    map["EUR_TO_BRL" := EUR_TO_BRL, "BRL_TO_EUR" := BRL_TO_EUR])

  function OpTypeName(o: OpType): string {
    match o
    case BUY => "BUY"
    case SELL => "SELL"
  }

  function ConversionName(c: CurrencyConversionType): string {
    match c
    case EUR_TO_BRL => "EUR_TO_BRL"
    case BRL_TO_EUR => "BRL_TO_EUR"
  }

  /** `str(member)` of a plain `Enum`: `Class.MEMBER`. */
  function OpTypeText(o: OpType): string {
    OpTypeClass.name + "." + OpTypeName(o)
  }

  function ConversionText(c: CurrencyConversionType): string {
    ConversionClass.name + "." + ConversionName(c)
  }

  /** A saved op type reloads as itself. */
  lemma OpTypeTextRoundTrip(o: OpType)
    ensures ParseEnum(OpTypeClass, Str(OpTypeText(o))) == Some(o)
  {
    assert IsWordChar('B') && IsWordChar('U') && IsWordChar('Y');
    assert IsWordChar('S') && IsWordChar('E') && IsWordChar('L');
    ParseEnumRoundTrip(OpTypeClass, OpTypeName(o));
  }

  /** A saved conversion type reloads as itself. */
  lemma ConversionTextRoundTrip(c: CurrencyConversionType)
    ensures ParseEnum(ConversionClass, Str(ConversionText(c))) == Some(c)
  {
    assert IsWordChar('E') && IsWordChar('U') && IsWordChar('R') && IsWordChar('_');
    assert IsWordChar('T') && IsWordChar('O') && IsWordChar('B') && IsWordChar('L');
    ParseEnumRoundTrip(ConversionClass, ConversionName(c));
  }

  /** Distinct members have distinct texts, so the reload is exact. */
  lemma OpTypeTextInjective(a: OpType, b: OpType)
    requires OpTypeText(a) == OpTypeText(b)
    ensures a == b
  {
    OpTypeTextRoundTrip(a);
    OpTypeTextRoundTrip(b);
  }

  /** A conversion tag in the op-type column reads as no op type at all
      (which the ledger walk then refuses). */
  lemma ConversionTextIsNoOpType(c: CurrencyConversionType)
    ensures ParseEnum(OpTypeClass, Str(ConversionText(c))).None?
  {
    var s := ConversionText(c);
    assert s[0] == 'C' && (OpTypeClass.name + ".")[0] == 'O';
  }
}
