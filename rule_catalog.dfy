/** The validation rules of a shipment (`Shipment::rules()`) as data, the
    option tables the `inList` rule refers to, and the derivation of the set
    of numeric properties from the rules. */
module RuleCatalog {
  import opened PhpValues
  import opened ShipmentRecord

  /** The patterns the number and integer rules carry. */
  datatype Pattern =
    | Digits(count: nat)      // exactly `count` decimal digits
    | Amount                  // 1 to 8 digits, an optional '.', then up to 2 digits

  /** The patterns the match rules carry. */
  datatype Shape =
    | DayMonthYear            // two digits, '/', two digits, '/', four digits
    | HourMinute              // two digits, ':', two digits

  /** The kind of a rule (its second element) with the parameters given beside it. */
  datatype Kind =
    | Required
    | Number(integerPattern: Option<Pattern>, numberPattern: Option<Pattern>)
    | Integer(integerPattern: Option<Pattern>)
    | StringMax(max: nat)
    | Match(pattern: Shape)
    | Email
    | InList
  {
    /** The kind as the rule table spells it. */
    function Name(): string {
      match this
      case Required => "required"
      case Number(_, _) => "number"
      case Integer(_) => "integer"
      case StringMax(_) => "string"
      case Match(_) => "match"
      case Email => "email"
      case InList => "inList"
    }
  }

  /** A rule's `when` parameter: `Always` when absent, otherwise the property
      whose truthiness switches the rule on. */
  datatype Condition = Always | WhenTruthy(field: FieldName)

  datatype Rule = Rule(attributes: seq<FieldName>, kind: Kind, when: Condition)

  const RuleCount: nat := 23

  /** Entry `j` of `Shipment::rules()` (0-based, in table order; the entry keyed 'lists' is the last). */
  function RuleAt(j: nat): Rule
    requires j < RuleCount
  {
    match j
    case 0 => Rule([Type, Code, CargoType, ConsigneeName, CityName, StreetName, BuildingNumber, PhoneNumber], Required, Always)
    case 1 => Rule([Code, Stage, CargoType, ReturnCargoType], Number(Some(Digits(5)), None), Always)
    case 2 => Rule([ReturnPackagesNumber], Integer(Some(Digits(3))), Always)
    case 3 => Rule([PackagesNumber, ParcelPreparationTime], Number(Some(Digits(6)), None), Always)
    case 4 => Rule([ConsigneeSum], Number(None, Some(Amount)), Always)
    case 5 => Rule([ReturnPickupPoint, PickupPoint, PaymentTypeCode], Integer(None), Always)
    case 6 => Rule([CompanyName, CityCode, StreetCode], StringMax(10), Always)
    case 7 => Rule([ConsigneeName, PhoneNumber, PhoneNumber2], StringMax(20), Always)
    case 8 => Rule([CityName, StreetName], StringMax(30), Always)
    case 9 => Rule([BuildingNumber], StringMax(5), Always)
    case 10 => Rule([EntranceNumber], StringMax(1), Always)
    case 11 => Rule([FloorNumber], StringMax(2), Always)
    case 12 => Rule([ApartmentNumber], StringMax(4), Always)
    case 13 => Rule([ReferenceNumber], StringMax(200), Always)
    case 14 => Rule([AddressRemarks], StringMax(70), Always)
    case 15 => Rule([ShipmentRemarks], StringMax(80), Always)
    case 16 => Rule([ReferenceNumber2], StringMax(50), Always)
    case 17 => Rule([PickupDate, ParcelPreparationDate], Match(DayMonthYear), Always)
    case 18 => Rule([ConsigneeDate], Match(DayMonthYear), WhenTruthy(ConsigneeSum))
    case 19 => Rule([PickupTime], Match(HourMinute), Always)
    case 20 => Rule([PaymentCollectionNotes], StringMax(500), Always)
    case 21 => Rule([ConsigneeEmail], Email, Always)
    case _ => Rule([Type, Code, CargoType, AutoPickupPoint, PaymentTypeCode], InList, Always)
  }

  /** `Shipment::rules()`. */
  function Rules(): seq<Rule> {
    seq(RuleCount, j requires 0 <= j < RuleCount => RuleAt(j))
  }

  /** The test `toApiData` applies to a rule: is its kind 'integer' or 'number'? */
  predicate IsNumberRule(rule: Rule) {
    rule.kind.Name() in ["integer", "number"]
  }

  lemma IsNumberRuleByKind(rule: Rule)
    ensures IsNumberRule(rule) <==> rule.kind.Integer? || rule.kind.Number?
  {
  }

  /** `$numberAttributes`: the attribute lists of the number and integer rules, concatenated in table order. */
  function NumberAttributes(rules: seq<Rule>): (r: seq<FieldName>)
    ensures forall f :: f in r <==> exists j :: 0 <= j < |rules| && IsNumberRule(rules[j]) && f in rules[j].attributes
  {
    if rules == [] then []
    else
      var last := rules[|rules| - 1];
      var init := NumberAttributes(rules[..|rules| - 1]);
      assert forall j :: 0 <= j < |rules| - 1 ==> rules[..|rules| - 1][j] == rules[j];
      if IsNumberRule(last) then init + last.attributes else init
  }

  /** The properties the carrier receives as numbers. */
  const NumericFields: set<FieldName> :=
    {Code, Stage, CargoType, ReturnCargoType, ReturnPackagesNumber, PackagesNumber, ParcelPreparationTime,
     ConsigneeSum, ReturnPickupPoint, PickupPoint, PaymentTypeCode}

  /** The number and integer rules are the five that follow the required rule. */
  lemma NumberRulesOfTable(j: nat)
    requires j < |Rules()|
    ensures IsNumberRule(Rules()[j]) <==> 1 <= j <= 5
  {
    IsNumberRuleByKind(Rules()[j]);
  }

  /** The five number and integer rules name exactly the `NumericFields`. */
  lemma NumberRulesName(f: FieldName)
    ensures f in NumericFields <==> exists j :: 1 <= j <= 5 && f in Rules()[j].attributes
  {
    var rules := Rules();
    assert rules[1].attributes == [Code, Stage, CargoType, ReturnCargoType];
    assert rules[2].attributes == [ReturnPackagesNumber];
    assert rules[3].attributes == [PackagesNumber, ParcelPreparationTime];
    assert rules[4].attributes == [ConsigneeSum];
    assert rules[5].attributes == [ReturnPickupPoint, PickupPoint, PaymentTypeCode];
    if f in NumericFields {
      var j := if f in rules[1].attributes then 1 else if f in rules[2].attributes then 2
        else if f in rules[3].attributes then 3 else if f in rules[4].attributes then 4 else 5;
      assert f in rules[j].attributes;
    }
  }

  /** A property is among the number attributes exactly when it is one of the eleven
      `NumericFields`; properties with only required, string, match, email or inList
      rules are not. */
  lemma NumberAttributesOfRules(f: FieldName)
    ensures f in NumberAttributes(Rules()) <==> f in NumericFields
  {
    NumberRulesName(f);
    var rules := Rules();
    if f in NumberAttributes(rules) {
      var j :| 0 <= j < |rules| && IsNumberRule(rules[j]) && f in rules[j].attributes;
      NumberRulesOfTable(j);
    }
    if f in NumericFields {
      var j :| 1 <= j <= 5 && f in rules[j].attributes;
      NumberRulesOfTable(j);
    }
  }

  /** The key of entry `j` of `rules()`: every entry is positional except the
      last, which is keyed 'lists'. */
  function RuleKey(j: nat): Option<string>
    requires j < RuleCount
  {
    if j == RuleCount - 1 then Some("lists") else None
  }

  /** What the `array_map` callback of `toApiData` returns for one rule. */
  function NumberList(rule: Rule): seq<FieldName> {
    if IsNumberRule(rule) then rule.attributes else []
  }

  /** `array_merge(...$arrays)` for a keyed list of arrays. PHP passes an entry
      with a string key as a named argument (or, before named arguments, refuses
      to unpack it), and `array_merge` takes no named parameter, so the call
      fails (`None`) as soon as one entry has a string key; otherwise it is the
      concatenation in order. */
  function SpreadMerge(arrays: seq<(Option<string>, seq<FieldName>)>): (r: Option<seq<FieldName>>)
    ensures r.None? <==> exists j :: 0 <= j < |arrays| && arrays[j].0.Some?
    ensures r.Some? ==> forall f :: f in r.value <==> exists j :: 0 <= j < |arrays| && f in arrays[j].1
  {
    if arrays == [] then Some([])
    else
      var init := arrays[..|arrays| - 1];
      var last := arrays[|arrays| - 1];
      assert forall j :: 0 <= j < |init| ==> init[j] == arrays[j];
      if last.0.Some? then None
      else
        match SpreadMerge(init)
        case None => None
        case Some(xs) => Some(xs + last.1)
  }

  /** The callback results of `toApiData`'s `array_map` over `rules()`; a
      single-array `array_map` keeps the keys, the 'lists' key among them. */
  function Keyed(): (r: seq<(Option<string>, seq<FieldName>)>)
    ensures |r| == |Rules()|
    ensures forall j :: 0 <= j < |r| ==> r[j].1 == NumberList(Rules()[j])
    ensures forall j :: 0 <= j < |r| ==> (r[j].0.Some? <==> j == RuleCount - 1)
    ensures r[RuleCount - 1].0 == Some("lists")
  {
    seq(RuleCount, j requires 0 <= j < RuleCount => (RuleKey(j), NumberList(RuleAt(j))))
  }

  /** The merge as written fails on the rule table, because of the 'lists' key. */
  lemma KeyedMergeFails()
    ensures SpreadMerge(Keyed()) == None
  {
    assert Keyed()[RuleCount - 1].0 == Some("lists");
  }

  /** The callback results with the keys dropped, as `array_values` would. */
  function Unkeyed(rules: seq<Rule>): (r: seq<(Option<string>, seq<FieldName>)>)
  {
    seq(|rules|, j requires 0 <= j < |rules| => (None, NumberList(rules[j])))
  }

  /** On the rule table the two lists differ only in the keys: every array
      of the positional list is the array of the keyed list at the same index,
      and only the last key is lost. */
  lemma KeyedIsUnkeyedWithKeys(j: nat)
    requires j < RuleCount
    ensures |Unkeyed(Rules())| == |Keyed()|
    ensures Unkeyed(Rules())[j].1 == Keyed()[j].1
    ensures Unkeyed(Rules())[j].0.None?
    ensures Keyed()[j].0 != Unkeyed(Rules())[j].0 <==> j == RuleCount - 1
  {
  }

  /** With the keys dropped, the merge succeeds and yields `NumberAttributes`. */
  lemma {:induction false} PositionalMerge(rules: seq<Rule>)
    ensures SpreadMerge(Unkeyed(rules)) == Some(NumberAttributes(rules))
  {
    if rules != [] {
      var init := rules[..|rules| - 1];
      var arrays := Unkeyed(rules);
      assert arrays[..|arrays| - 1] == Unkeyed(init);
      PositionalMerge(init);
      var last := rules[|rules| - 1];
      assert NumberAttributes(rules) == NumberAttributes(init) + NumberList(last) by {
        if !IsNumberRule(last) {
          assert NumberAttributes(init) + [] == NumberAttributes(init);
        }
      }
    }
  }

  // The option tables: the keys of `typeList()`, `codeList()`, `cargoTypeList()`,
  // `autoPickupPointList()` and `paymentTypeCodeList()`, in table order.

  function TypeListKeys(): seq<Value> {
    [Str(TYPE_DELIVERIES), Str(TYPE_RETURNS)]
  }

  function AutoPickupPointListKeys(): seq<Value> {
    [Str("N"), Str("Y"), Str("L"), Str("S")]
  }

  function CodeListKeys(): seq<Value> {
    [Int(140), Int(240)]
  }

  function CargoTypeListKeys(): seq<Value> {
    [Int(99), Int(100), Int(130), Int(145), Int(150), Int(155), Int(160), Int(170), Int(190), Int(198), Int(199), Int(999)]
  }

  function PaymentTypeCodeListKeys(): seq<Value> {
    [Str(""), Int(1), Int(2)]
  }

  /** The option table of a property, found by the `<property>List()` naming
      convention; `None` for a property without one. */
  function ListKeysOf(f: FieldName): Option<seq<Value>> {
    match f
    case Type => Some(TypeListKeys())
    case Code => Some(CodeListKeys())
    case CargoType => Some(CargoTypeListKeys())
    case AutoPickupPoint => Some(AutoPickupPointListKeys())
    case PaymentTypeCode => Some(PaymentTypeCodeListKeys())
    case _ => None
  }

  /** The email rule is entry 21 and names consigneeEmail alone; the inList
      rule is the last entry and names exactly the properties with an option table. */
  lemma OtherRulesOfTable(j: nat)
    requires j < |Rules()|
    ensures Rules()[j].kind.Email? <==> j == 21
    ensures j == 21 ==> Rules()[j].attributes == [ConsigneeEmail]
    ensures Rules()[j].kind.InList? <==> j == RuleCount - 1
    ensures j == RuleCount - 1 ==> forall f :: f in Rules()[j].attributes <==> ListKeysOf(f).Some?
  {
  }

  /** The defaults of type, code and cargoType are keys of their option tables. */
  lemma DefaultsAreListed()
    ensures DefaultValue(Type) in TypeListKeys()
    ensures DefaultValue(Code) in CodeListKeys()
    ensures DefaultValue(CargoType) in CargoTypeListKeys()
    ensures Str(TYPE_RETURNS) in TypeListKeys() && TYPE_DELIVERIES != TYPE_RETURNS
  {
  }
}
