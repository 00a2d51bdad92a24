/** `Shipment::toApiData()`: the positional encoding of a shipment that the
    carrier receives, one type-prefixed token per property. */
module ApiData {
  import opened PhpValues
  import opened ShipmentRecord
  import opened RuleCatalog

  const NumberPrefix: string := "-N"
  const TextPrefix: string := "-A"

  /** The prefix the carrier expects for property `f`. */
  function PrefixOf(f: FieldName): string {
    if f in NumericFields then NumberPrefix else TextPrefix
  }

  lemma NumberAttributesAre()
    ensures forall f :: f in NumberAttributes(Rules()) <==> f in NumericFields
  {
    forall f ensures f in NumberAttributes(Rules()) <==> f in NumericFields {
      NumberAttributesOfRules(f);
    }
  }

  /** The token of one property, given the list of number attributes. */
  function Token(numberAttributes: seq<FieldName>, field: Field): string {
    (if field.name in numberAttributes then "-N" else "-A") + ToPhpString(field.value)
  }

  /** With the number attributes of the rule table, a token is the property's prefix and string form. */
  lemma TokensAre()
    ensures forall field: Field :: Token(NumberAttributes(Rules()), field) == PrefixOf(field.name) + ToPhpString(field.value)
  {
    NumberAttributesAre();
  }

  /** One token per property, in the record's order: '-N' for a property named
      by a number or integer rule, '-A' for any other, then the property's
      string form (empty for null). */
  function ToApiData(s: Shipment): (r: seq<string>)
    ensures |r| == |s|
    ensures forall i :: 0 <= i < |s| ==> r[i] == PrefixOf(s[i].name) + ToPhpString(s[i].value)
  {
    var numberAttributes := NumberAttributes(Rules());
    TokensAre();
    seq(|s|, i requires 0 <= i < |s| => Token(numberAttributes, s[i]))
  }

  /** The encoder over the callback results `arrays`: their spread merge gives
      the number attributes, then one token per property; `None` when the
      merge fails. */
  function EncodeWith(arrays: seq<(Option<string>, seq<FieldName>)>, s: Shipment): (r: Option<seq<string>>)
    ensures r.Some? <==> SpreadMerge(arrays).Some?
  {
    match SpreadMerge(arrays)
    case None => None
    case Some(numberAttributes) => Some(seq(|s|, i requires 0 <= i < |s| => Token(numberAttributes, s[i])))
  }

  /** `toApiData` exactly as written: it merges the keyed callback results. */
  function ToApiDataAsWritten(s: Shipment): Option<seq<string>> {
    EncodeWith(Keyed(), s)
  }

  /** As written, every record makes the encoder fail. */
  lemma ToApiDataAsWrittenFails(s: Shipment)
    ensures ToApiDataAsWritten(s) == None
  {
    KeyedMergeFails();
  }

  /** The corrected encoder merges the callback results without their keys;
      that succeeds and gives exactly `ToApiData`. */
  lemma ToApiDataCorrected(s: Shipment)
    ensures EncodeWith(Unkeyed(Rules()), s) == Some(ToApiData(s))
  {
    PositionalMerge(Rules());
  }

  /** The encoding of a well-formed record has one token per declared property,
      at that property's declared position, whatever the values. */
  lemma ApiDataLayout(s: Shipment, f: FieldName)
    requires WellFormed(s)
    ensures |ToApiData(s)| == FieldCount
    ensures ToApiData(s)[Position(f)] == PrefixOf(f) + ToPhpString(Get(s, f))
  {
    GetAt(s, f);
  }

  /** Whatever `fromArray` is given, the encoding has 41 tokens in declaration order. */
  lemma ApiDataOfBuilt(data: seq<(FieldName, Value)>)
    ensures |ToApiData(Built(data))| == 41
    ensures forall i :: 0 <= i < 41 ==> ToApiData(Built(data))[i][..2] == PrefixOf(Declared[i])
  {
    var r := ToApiData(Built(data));
    forall i | 0 <= i < 41 ensures r[i][..2] == PrefixOf(Declared[i]) {
      assert r[i] == PrefixOf(Declared[i]) + ToPhpString(Built(data)[i].value);
    }
  }

  /** A token starts with '-N' exactly for the eleven numeric properties. */
  lemma NumberPrefixExactly(s: Shipment, i: nat)
    requires i < |s|
    ensures ToApiData(s)[i][..2] == "-N" <==> s[i].name in NumericFields
    ensures ToApiData(s)[i][..2] == "-A" <==> s[i].name !in NumericFields
  {
  }

  /** A null property yields the bare prefix. */
  lemma NullToken(s: Shipment, f: FieldName)
    requires WellFormed(s) && Get(s, f) == Null
    ensures ToApiData(s)[Position(f)] == PrefixOf(f)
  {
    ApiDataLayout(s, f);
  }

  lemma Decimal140()
    ensures NatToDecimal(140) == "140"
  {
    assert NatToDecimal(1) == "1";
    assert NatToDecimal(14) == NatToDecimal(1) + "4";
  }

  /** An integer yields its decimal digits: code 140 is sent as "-N140". */
  lemma IntToken(s: Shipment)
    requires WellFormed(s) && Get(s, Code) == Int(140)
    ensures ToApiData(s)[Position(Code)] == "-N140"
  {
    ApiDataLayout(s, Code);
    Decimal140();
  }

  /** A string is sent as it is: consigneeName "Alice" is sent as "-AAlice". */
  lemma StrToken(s: Shipment)
    requires WellFormed(s) && Get(s, ConsigneeName) == Str("Alice")
    ensures ToApiData(s)[Position(ConsigneeName)] == "-AAlice"
  {
    ApiDataLayout(s, ConsigneeName);
    assert PrefixOf(ConsigneeName) == TextPrefix;
    assert TextPrefix + "Alice" == "-AAlice";
  }

  /** Changing one property changes only the token at that property's
      position; validity is never consulted. */
  lemma ApiDataLocality(s: Shipment, f: FieldName, v: Value)
    requires WellFormed(s)
    ensures |ToApiData(Set(s, f, v))| == |ToApiData(s)|
    ensures forall i :: 0 <= i < |s| ==>
      ToApiData(Set(s, f, v))[i] == (if i == Position(f) then PrefixOf(f) + ToPhpString(v) else ToApiData(s)[i])
  {
    GetAt(s, f);
  }

  /** What a token says: its class, and the property's string form. */
  datatype Decoded = Decoded(numeric: bool, text: string)

  function DecodeToken(t: string): Option<Decoded> {
    if |t| >= 2 && t[..2] == NumberPrefix then Some(Decoded(true, t[2..]))
    else if |t| >= 2 && t[..2] == TextPrefix then Some(Decoded(false, t[2..]))
    else None
  }

  /** Reads a token list back; `None` if some token lacks a prefix. */
  function DecodeApiData(tokens: seq<string>): Option<seq<Decoded>> {
    if tokens == [] then Some([])
    else
      match (DecodeToken(tokens[0]), DecodeApiData(tokens[1..]))
      case (Some(d), Some(ds)) => Some([d] + ds)
      case _ => None
  }

  /** The meaning of a record's encoding, per property. */
  function Meaning(s: Shipment): seq<Decoded> {
    seq(|s|, i requires 0 <= i < |s| => Decoded(s[i].name in NumericFields, ToPhpString(s[i].value)))
  }

  /** The first token decodes to the first property's meaning. */
  lemma FirstTokenDecodes(s: Shipment)
    requires s != []
    ensures DecodeToken(ToApiData(s)[0]) == Some(Meaning(s)[0])
  {
    var t := ToApiData(s)[0];
    assert t[..2] == PrefixOf(s[0].name) && t[2..] == ToPhpString(s[0].value);
  }

  /** Encoding and meaning both split off their first entry. */
  lemma ApiDataTail(s: Shipment)
    requires s != []
    ensures ToApiData(s)[1..] == ToApiData(s[1..])
    ensures Meaning(s) == [Meaning(s)[0]] + Meaning(s[1..])
  {
  }

  /** Decoding an encoding recovers, for every property in order, whether it is
      numeric and its string form. */
  lemma {:induction false} DecodeApiDataRoundTrip(s: Shipment)
    ensures DecodeApiData(ToApiData(s)) == Some(Meaning(s))
  {
    if s != [] {
      FirstTokenDecodes(s);
      ApiDataTail(s);
      DecodeApiDataRoundTrip(s[1..]);
    } else {
      assert ToApiData(s) == [];
      assert Meaning(s) == [];
    }
  }

  /** An integer property is recovered exactly from its token. */
  lemma IntFieldRoundTrip(s: Shipment, i: nat, n: int)
    requires i < |s| && s[i].value == Int(n)
    ensures DecodeToken(ToApiData(s)[i]).Some?
    ensures ParseInt(DecodeToken(ToApiData(s)[i]).value.text) == Some(n)
  {
    assert ToApiData(s)[i][2..] == ToPhpString(Int(n));
  }
}
