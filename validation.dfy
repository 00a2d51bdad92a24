/** A checker over the rule table. It interprets exactly what the table
    states: which properties are required, the maximum string lengths, the
    date and time shapes of the match rules, and the `when` condition of the
    consigneeDate rule. The number, integer, email and inList rules are
    carried by the table but never fail here. */
module Validation {
  import opened PhpValues
  import opened ShipmentRecord
  import opened RuleCatalog

  /** One failed check: the property and the kind of the rule it fails. */
  datatype Violation = Violation(attribute: FieldName, kind: string)

  predicate DigitRun(t: string, from: nat, count: nat) {
    from + count <= |t| && forall k :: from <= k < from + count ==> IsDigit(t[k])
  }

  /** `t` has exactly the shape, with nothing before or after. */
  predicate HasShape(shape: Shape, t: string) {
    match shape
    case DayMonthYear =>
      |t| == 10 && DigitRun(t, 0, 2) && t[2] == '/' && DigitRun(t, 3, 2) && t[5] == '/' && DigitRun(t, 6, 4)
    case HourMinute =>
      |t| == 5 && DigitRun(t, 0, 2) && t[2] == ':' && DigitRun(t, 3, 2)
  }

  /** The anchored pattern matches `t`; as in PCRE, the closing `$` also
      accepts one final newline. */
  predicate Matches(shape: Shape, t: string) {
    HasShape(shape, t) || (|t| > 0 && t[|t| - 1] == '\n' && HasShape(shape, t[..|t| - 1]))
  }

  /** The shapes on sample values: the closing `$` also lets one trailing
      newline through, and a digit may not be left out. */
  lemma ShapeExamples()
    ensures Matches(DayMonthYear, "01/02/2024") && Matches(DayMonthYear, "01/02/2024\n")
    ensures !HasShape(DayMonthYear, "01/02/2024\n") && !Matches(DayMonthYear, "1/02/2024")
    ensures Matches(HourMinute, "09:30") && !Matches(HourMinute, "9:30") && !Matches(HourMinute, "09:30\n\n")
  {
    assert HasShape(DayMonthYear, "01/02/2024");
    var t := "01/02/2024\n";
    assert t[..|t| - 1] == "01/02/2024";
    var u := "09:30\n\n";
    assert u[..|u| - 1] == "09:30\n";
  }

  /** Whether a rule is in force for the record: a `when` rule only while its property is truthy. */
  predicate Applies(rule: Rule, s: Shipment)
    requires WellFormed(s)
  {
    match rule.when
    case Always => true
    case WhenTruthy(f) => Truthy(Get(s, f))
  }

  /** Whether value `v` fails a rule of kind `k`. Only required, string and
      match are interpreted; string and match leave empty values alone. */
  predicate Fails(k: Kind, v: Value) {
    match k
    case Required => IsEmptyValue(v)
    case StringMax(max) => v.Str? && |v.s| > max
    case Match(shape) => !IsEmptyValue(v) && !Matches(shape, ToPhpString(v))
    case _ => false
  }

  /** The violations of one kind of check over a list of properties, in list order. */
  function CheckAttributes(attributes: seq<FieldName>, k: Kind, s: Shipment): (r: seq<Violation>)
    requires WellFormed(s)
    ensures |r| <= |attributes|
    ensures forall x :: x in r <==> x.kind == k.Name() && x.attribute in attributes && Fails(k, Get(s, x.attribute))
  {
    if attributes == [] then []
    else
      var f := attributes[|attributes| - 1];
      var init := CheckAttributes(attributes[..|attributes| - 1], k, s);
      assert attributes == attributes[..|attributes| - 1] + [f];
      init + (if Fails(k, Get(s, f)) then [Violation(f, k.Name())] else [])
  }

  /** The violations of one rule: none when its `when` is false. */
  function CheckRule(rule: Rule, s: Shipment): (r: seq<Violation>)
    requires WellFormed(s)
    ensures !Applies(rule, s) ==> r == []
    ensures forall x :: x in r <==>
      Applies(rule, s) && x.kind == rule.kind.Name() && x.attribute in rule.attributes && Fails(rule.kind, Get(s, x.attribute))
  {
    if Applies(rule, s) then CheckAttributes(rule.attributes, rule.kind, s) else []
  }

  /** Every rule is run, in table order, and all their violations are collected. */
  function CheckRules(rules: seq<Rule>, s: Shipment): (r: seq<Violation>)
    requires WellFormed(s)
    ensures forall x :: x in r <==> exists j :: 0 <= j < |rules| && x in CheckRule(rules[j], s)
  {
    if rules == [] then []
    else
      var init := rules[..|rules| - 1];
      var last := rules[|rules| - 1];
      var before := CheckRules(init, s);
      assert rules == init + [last];
      CheckRulesStep(init, last, s, before);
      before + CheckRule(last, s)
  }

  /** The violations of some entries of `init`, followed by those of `last`,
      are the violations of some entry of `init + [last]`. */
  lemma CheckRulesStep(init: seq<Rule>, last: Rule, s: Shipment, before: seq<Violation>)
    requires WellFormed(s)
    requires forall x :: x in before <==> exists j :: 0 <= j < |init| && x in CheckRule(init[j], s)
    ensures forall x :: x in before + CheckRule(last, s) <==>
      exists j :: 0 <= j < |init| + 1 && x in CheckRule((init + [last])[j], s)
  {
    var rules := init + [last];
    forall x
      ensures x in before + CheckRule(last, s) <==> exists j :: 0 <= j < |rules| && x in CheckRule(rules[j], s)
    {
      if x in before {
        var j :| 0 <= j < |init| && x in CheckRule(init[j], s);
        assert rules[j] == init[j];
      } else if x in CheckRule(last, s) {
        assert rules[|init|] == last;
      }
      if exists j :: 0 <= j < |rules| && x in CheckRule(rules[j], s) {
        var j :| 0 <= j < |rules| && x in CheckRule(rules[j], s);
        if j < |init| {
          assert rules[j] == init[j];
        }
      }
    }
  }

  /** The violations of a record under the rule table. */
  function Validate(s: Shipment): seq<Violation>
    requires WellFormed(s)
  {
    CheckRules(Rules(), s)
  }

  /** The properties the table marks as required. */
  predicate IsRequired(f: FieldName) {
    match f
    case Type | Code | CargoType | ConsigneeName | CityName | StreetName | BuildingNumber | PhoneNumber => true
    case _ => false
  }

  /** The maximum length of each property with a string rule, read off the
      property list rather than the rule table. */
  function MaxLengthOf(f: FieldName): Option<nat> {
    match f
    case CompanyName => Some(10)
    case CityCode => Some(10)
    case StreetCode => Some(10)
    case ConsigneeName => Some(20)
    case PhoneNumber => Some(20)
    case PhoneNumber2 => Some(20)
    case CityName => Some(30)
    case StreetName => Some(30)
    case BuildingNumber => Some(5)
    case EntranceNumber => Some(1)
    case FloorNumber => Some(2)
    case ApartmentNumber => Some(4)
    case ReferenceNumber => Some(200)
    case AddressRemarks => Some(70)
    case ShipmentRemarks => Some(80)
    case ReferenceNumber2 => Some(50)
    case PaymentCollectionNotes => Some(500)
    case _ => None
  }

  /** Only the first rule is a required rule, and it names the `IsRequired` properties. */
  lemma RequiredRuleOfTable(j: nat)
    requires j < |Rules()|
    ensures Rules()[j].kind.Required? <==> j == 0
    ensures j == 0 ==> forall f :: f in Rules()[j].attributes <==> IsRequired(f)
  {
  }

  /** The three match rules sit at positions 17 to 19, and only the middle one has a `when`. */
  lemma MatchRulesOfTable(j: nat)
    requires j < |Rules()|
    ensures Rules()[j].kind.Match? <==> 17 <= j <= 19
    ensures Rules()[j].when != Always <==> j == 18
  {
  }

  /** Every string rule gives each of its properties the maximum `MaxLengthOf` lists. */
  lemma StringRulesOfTable(j: nat)
    requires j < |Rules()| && Rules()[j].kind.StringMax?
    ensures forall f :: f in Rules()[j].attributes ==> MaxLengthOf(f) == Some(Rules()[j].kind.max)
  {
  }

  /** Each property with a maximum length is named by a string rule with that maximum. */
  lemma StringRuleFor(f: FieldName)
    requires MaxLengthOf(f).Some?
    ensures exists j :: 0 <= j < |Rules()| && Rules()[j].kind == StringMax(MaxLengthOf(f).value) && f in Rules()[j].attributes
  {
    var rules := Rules();
    match f {
      case CompanyName | CityCode | StreetCode =>
        assert rules[6] == Rule([CompanyName, CityCode, StreetCode], StringMax(10), Always);
      case ConsigneeName | PhoneNumber | PhoneNumber2 =>
        assert rules[7] == Rule([ConsigneeName, PhoneNumber, PhoneNumber2], StringMax(20), Always);
      case CityName | StreetName =>
        assert rules[8] == Rule([CityName, StreetName], StringMax(30), Always);
      case BuildingNumber =>
        assert rules[9] == Rule([BuildingNumber], StringMax(5), Always);
      case EntranceNumber =>
        assert rules[10] == Rule([EntranceNumber], StringMax(1), Always);
      case FloorNumber =>
        assert rules[11] == Rule([FloorNumber], StringMax(2), Always);
      case ApartmentNumber =>
        assert rules[12] == Rule([ApartmentNumber], StringMax(4), Always);
      case ReferenceNumber =>
        assert rules[13] == Rule([ReferenceNumber], StringMax(200), Always);
      case AddressRemarks =>
        assert rules[14] == Rule([AddressRemarks], StringMax(70), Always);
      case ShipmentRemarks =>
        assert rules[15] == Rule([ShipmentRemarks], StringMax(80), Always);
      case ReferenceNumber2 =>
        assert rules[16] == Rule([ReferenceNumber2], StringMax(50), Always);
      case PaymentCollectionNotes =>
        assert rules[20] == Rule([PaymentCollectionNotes], StringMax(500), Always);
    }
  }

  /** What a reported violation can be: a required rule on an empty property,
      a string rule on an over-long string, or a match rule in force on a
      non-empty value of the wrong shape. */
  predicate Explained(s: Shipment, x: Violation)
    requires WellFormed(s)
  {
    var v := Get(s, x.attribute);
    || (x.kind == "required" && IsRequired(x.attribute) && IsEmptyValue(v))
    || (x.kind == "string" && MaxLengthOf(x.attribute).Some? && v.Str? && |v.s| > MaxLengthOf(x.attribute).value)
    || (x.kind == "match" && x.attribute in {PickupDate, ParcelPreparationDate} &&
        !IsEmptyValue(v) && !Matches(DayMonthYear, ToPhpString(v)))
    || (x.kind == "match" && x.attribute == ConsigneeDate && Truthy(Get(s, ConsigneeSum)) &&
        !IsEmptyValue(v) && !Matches(DayMonthYear, ToPhpString(v)))
    || (x.kind == "match" && x.attribute == PickupTime && !IsEmptyValue(v) && !Matches(HourMinute, ToPhpString(v)))
  }

  lemma RequiredRuleExplained(s: Shipment, j: nat, x: Violation)
    requires WellFormed(s) && j < |Rules()| && Rules()[j].kind.Required? && x in CheckRule(Rules()[j], s)
    ensures x.kind == "required" && IsRequired(x.attribute) && IsEmptyValue(Get(s, x.attribute))
  {
    RequiredRuleOfTable(j);
  }

  lemma StringRuleExplained(s: Shipment, j: nat, x: Violation)
    requires WellFormed(s) && j < |Rules()| && Rules()[j].kind.StringMax? && x in CheckRule(Rules()[j], s)
    ensures x.kind == "string" && MaxLengthOf(x.attribute).Some? && Get(s, x.attribute).Str?
    ensures |Get(s, x.attribute).s| > MaxLengthOf(x.attribute).value
  {
    StringRulesOfTable(j);
  }

  lemma MatchRuleExplained(s: Shipment, j: nat, x: Violation)
    requires WellFormed(s) && j < |Rules()| && Rules()[j].kind.Match? && x in CheckRule(Rules()[j], s)
    ensures Explained(s, x)
  {
    MatchRulesOfTable(j);
    var rule := Rules()[j];
    var v := Get(s, x.attribute);
    assert Applies(rule, s) && x.kind == rule.kind.Name() && x.attribute in rule.attributes && Fails(rule.kind, v);
    if j == 17 {
      assert rule == Rule([PickupDate, ParcelPreparationDate], Match(DayMonthYear), Always);
      assert x.kind == "match" && x.attribute in {PickupDate, ParcelPreparationDate};
      assert !IsEmptyValue(v) && !Matches(DayMonthYear, ToPhpString(v));
    } else if j == 18 {
      assert rule == Rule([ConsigneeDate], Match(DayMonthYear), WhenTruthy(ConsigneeSum));
      assert x.kind == "match" && x.attribute == ConsigneeDate && Truthy(Get(s, ConsigneeSum));
      assert !IsEmptyValue(v) && !Matches(DayMonthYear, ToPhpString(v));
    } else {
      assert rule == Rule([PickupTime], Match(HourMinute), Always);
      assert x.kind == "match" && x.attribute == PickupTime;
      assert !IsEmptyValue(v) && !Matches(HourMinute, ToPhpString(v));
    }
  }

  /** Every reported violation is `Explained`. */
  lemma ViolationCauses(s: Shipment, x: Violation)
    requires WellFormed(s)
    ensures x in Validate(s) ==> Explained(s, x)
  {
    if x in Validate(s) {
      var j :| 0 <= j < |Rules()| && x in CheckRule(Rules()[j], s);
      var k := Rules()[j].kind;
      if k.Required? {
        RequiredRuleExplained(s, j, x);
      } else if k.StringMax? {
        StringRuleExplained(s, j, x);
      } else if k.Match? {
        MatchRuleExplained(s, j, x);
      } else {
        assert false;
      }
    }
  }

  /** The violation of entry `j` on property `f` is reported when the entry
      is in force and `f` fails it. */
  lemma EntryReported(s: Shipment, j: nat, x: Violation)
    requires WellFormed(s) && j < |Rules()|
    requires Applies(Rules()[j], s) && x.kind == Rules()[j].kind.Name()
    requires x.attribute in Rules()[j].attributes && Fails(Rules()[j].kind, Get(s, x.attribute))
    ensures x in Validate(s)
  {
    assert x in CheckRule(Rules()[j], s);
  }

  /** An empty required property is reported. */
  lemma EmptyRequiredIsReported(s: Shipment, f: FieldName)
    requires WellFormed(s) && IsRequired(f) && IsEmptyValue(Get(s, f))
    ensures Violation(f, "required") in Validate(s)
  {
    assert Rules()[0] == Rule([Type, Code, CargoType, ConsigneeName, CityName, StreetName, BuildingNumber, PhoneNumber], Required, Always);
    EntryReported(s, 0, Violation(f, "required"));
  }

  /** A required violation is reported for `f` exactly when `f` is required and empty. */
  lemma RequiredViolation(s: Shipment, f: FieldName)
    requires WellFormed(s)
    ensures Violation(f, "required") in Validate(s) <==> IsRequired(f) && IsEmptyValue(Get(s, f))
  {
    if Violation(f, "required") in Validate(s) {
      ViolationCauses(s, Violation(f, "required"));
    }
    if IsRequired(f) && IsEmptyValue(Get(s, f)) {
      EmptyRequiredIsReported(s, f);
    }
  }

  /** An empty property fails nothing but its required rule. */
  lemma EmptyFailsOnlyRequired(s: Shipment, f: FieldName)
    requires WellFormed(s) && IsEmptyValue(Get(s, f))
    ensures forall x :: x in Validate(s) && x.attribute == f ==> x == Violation(f, "required")
  {
  }

  /** A string longer than its property's maximum is reported. */
  lemma TooLongIsReported(s: Shipment, f: FieldName)
    requires WellFormed(s) && MaxLengthOf(f).Some? && Get(s, f).Str? && |Get(s, f).s| > MaxLengthOf(f).value
    ensures Violation(f, "string") in Validate(s)
  {
    StringRuleFor(f);
    var j :| 0 <= j < |Rules()| && Rules()[j].kind == StringMax(MaxLengthOf(f).value) && f in Rules()[j].attributes;
    MatchRulesOfTable(j);
    EntryReported(s, j, Violation(f, "string"));
  }

  /** A string violation is reported for `f` exactly when `f` holds a string
      longer than its maximum; integers and null are never measured. */
  lemma MaxLengthViolation(s: Shipment, f: FieldName)
    requires WellFormed(s)
    ensures Violation(f, "string") in Validate(s) <==>
      MaxLengthOf(f).Some? && Get(s, f).Str? && |Get(s, f).s| > MaxLengthOf(f).value
  {
    if Violation(f, "string") in Validate(s) {
      ViolationCauses(s, Violation(f, "string"));
    }
    if MaxLengthOf(f).Some? && Get(s, f).Str? && |Get(s, f).s| > MaxLengthOf(f).value {
      TooLongIsReported(s, f);
    }
  }

  lemma BadDateIsReported(s: Shipment, f: FieldName)
    requires WellFormed(s) && (f == PickupDate || f == ParcelPreparationDate)
    requires !IsEmptyValue(Get(s, f)) && !Matches(DayMonthYear, ToPhpString(Get(s, f)))
    ensures Violation(f, "match") in Validate(s)
  {
    assert Rules()[17] == Rule([PickupDate, ParcelPreparationDate], Match(DayMonthYear), Always);
    EntryReported(s, 17, Violation(f, "match"));
  }

  lemma BadConsigneeDateIsReported(s: Shipment)
    requires WellFormed(s) && Truthy(Get(s, ConsigneeSum))
    requires !IsEmptyValue(Get(s, ConsigneeDate)) && !Matches(DayMonthYear, ToPhpString(Get(s, ConsigneeDate)))
    ensures Violation(ConsigneeDate, "match") in Validate(s)
  {
    assert Rules()[18] == Rule([ConsigneeDate], Match(DayMonthYear), WhenTruthy(ConsigneeSum));
    EntryReported(s, 18, Violation(ConsigneeDate, "match"));
  }

  lemma BadTimeIsReported(s: Shipment)
    requires WellFormed(s)
    requires !IsEmptyValue(Get(s, PickupTime)) && !Matches(HourMinute, ToPhpString(Get(s, PickupTime)))
    ensures Violation(PickupTime, "match") in Validate(s)
  {
    assert Rules()[19] == Rule([PickupTime], Match(HourMinute), Always);
    EntryReported(s, 19, Violation(PickupTime, "match"));
  }

  /** A non-empty value of the wrong shape in a match rule that is in force is reported. */
  lemma BadShapeIsReported(s: Shipment, f: FieldName)
    requires WellFormed(s) && f in {PickupDate, ParcelPreparationDate, ConsigneeDate, PickupTime}
    requires f == ConsigneeDate ==> Truthy(Get(s, ConsigneeSum))
    requires !IsEmptyValue(Get(s, f)) && !Matches(if f == PickupTime then HourMinute else DayMonthYear, ToPhpString(Get(s, f)))
    ensures Violation(f, "match") in Validate(s)
  {
    if f == ConsigneeDate {
      BadConsigneeDateIsReported(s);
    } else if f == PickupTime {
      BadTimeIsReported(s);
    } else {
      BadDateIsReported(s, f);
    }
  }

  /** Every consigneeDate violation is a bad shape reported while consigneeSum is truthy. */
  lemma ConsigneeDateViolation(s: Shipment, x: Violation)
    requires WellFormed(s) && x in Validate(s) && x.attribute == ConsigneeDate
    ensures x.kind == "match" && Truthy(Get(s, ConsigneeSum))
    ensures !IsEmptyValue(Get(s, ConsigneeDate)) && !Matches(DayMonthYear, ToPhpString(Get(s, ConsigneeDate)))
  {
    ViolationCauses(s, x);
  }

  /** The consigneeDate shape is checked only while consigneeSum is truthy:
      otherwise no value of consigneeDate is reported, and while it is, a
      non-empty consigneeDate of the wrong shape is. */
  lemma ConsigneeDateOnlyWithSum(s: Shipment)
    requires WellFormed(s)
    ensures !Truthy(Get(s, ConsigneeSum)) ==> forall x :: x in Validate(s) ==> x.attribute != ConsigneeDate
    ensures Violation(ConsigneeDate, "match") in Validate(s) <==>
      Truthy(Get(s, ConsigneeSum)) && !IsEmptyValue(Get(s, ConsigneeDate)) &&
      !Matches(DayMonthYear, ToPhpString(Get(s, ConsigneeDate)))
  {
    forall x | x in Validate(s) && x.attribute == ConsigneeDate
      ensures Truthy(Get(s, ConsigneeSum))
    {
      ConsigneeDateViolation(s, x);
    }
    if Violation(ConsigneeDate, "match") in Validate(s) {
      ConsigneeDateViolation(s, Violation(ConsigneeDate, "match"));
    }
    if Truthy(Get(s, ConsigneeSum)) && !IsEmptyValue(Get(s, ConsigneeDate)) &&
      !Matches(DayMonthYear, ToPhpString(Get(s, ConsigneeDate)))
    {
      BadShapeIsReported(s, ConsigneeDate);
    }
  }

  /** The pickupDate and parcelPreparationDate shapes, and the pickupTime
      shape, are checked whatever consigneeSum holds. */
  lemma ShapeUnconditional(s: Shipment, f: FieldName)
    requires WellFormed(s) && f in {PickupDate, ParcelPreparationDate, PickupTime}
    ensures Violation(f, "match") in Validate(s) <==>
      !IsEmptyValue(Get(s, f)) && !Matches(if f == PickupTime then HourMinute else DayMonthYear, ToPhpString(Get(s, f)))
  {
    if Violation(f, "match") in Validate(s) {
      ViolationCauses(s, Violation(f, "match"));
    }
    if !IsEmptyValue(Get(s, f)) && !Matches(if f == PickupTime then HourMinute else DayMonthYear, ToPhpString(Get(s, f))) {
      BadShapeIsReported(s, f);
    }
  }

  /** The definition of `CheckRules` on a non-empty table. */
  lemma CheckRulesLast(rules: seq<Rule>, s: Shipment)
    requires WellFormed(s) && rules != []
    ensures CheckRules(rules, s) == CheckRules(rules[..|rules| - 1], s) + CheckRule(rules[|rules| - 1], s)
  {
  }

  lemma DropLastOfAppend(a: seq<Rule>, b: seq<Rule>)
    requires b != []
    ensures (a + b)[..|a + b| - 1] == a + b[..|b| - 1]
    ensures (a + b)[|a + b| - 1] == b[|b| - 1]
  {
  }

  /** Appending one more rule to both sides of the decomposition. */
  lemma CheckRulesAppendStep(a: seq<Rule>, b: seq<Rule>, s: Shipment)
    requires WellFormed(s) && b != []
    requires CheckRules(a + b[..|b| - 1], s) == CheckRules(a, s) + CheckRules(b[..|b| - 1], s)
    ensures CheckRules(a + b, s) == CheckRules(a, s) + CheckRules(b, s)
  {
    var init := b[..|b| - 1];
    DropLastOfAppend(a, b);
    CheckRulesLast(a + b, s);
    CheckRulesLast(b, s);
    AppendAssociates(CheckRules(a, s), CheckRules(init, s), CheckRule(b[|b| - 1], s));
  }

  lemma AppendAssociates(x: seq<Violation>, y: seq<Violation>, z: seq<Violation>)
    ensures x + y + z == x + (y + z)
  {
  }

  /** Checking a table in two parts reports the first part's violations, then the second's. */
  lemma {:induction false} CheckRulesAppend(a: seq<Rule>, b: seq<Rule>, s: Shipment)
    requires WellFormed(s)
    ensures CheckRules(a + b, s) == CheckRules(a, s) + CheckRules(b, s)
    decreases |b|
  {
    if b == [] {
      assert a + b == a;
    } else {
      CheckRulesAppend(a, b[..|b| - 1], s);
      CheckRulesAppendStep(a, b, s);
    }
  }

  /** Violations come in table order: those of the entries before `j`, then
      those of entry `j`, then those of the entries after it. */
  lemma ValidateInTableOrder(s: Shipment, j: nat)
    requires WellFormed(s) && j < |Rules()|
    ensures Validate(s) == CheckRules(Rules()[..j], s) + CheckRule(Rules()[j], s) + CheckRules(Rules()[j + 1..], s)
  {
    var rules := Rules();
    assert rules == rules[..j] + [rules[j]] + rules[j + 1..];
    CheckRulesAppend(rules[..j] + [rules[j]], rules[j + 1..], s);
    CheckRulesAppend(rules[..j], [rules[j]], s);
    assert [rules[j]][..0] == [];
  }

  /** The definition of `CheckAttributes` on a non-empty list. */
  lemma CheckAttributesLast(attributes: seq<FieldName>, k: Kind, s: Shipment)
    requires WellFormed(s) && attributes != []
    ensures CheckAttributes(attributes, k, s) ==
      CheckAttributes(attributes[..|attributes| - 1], k, s) +
      (if Fails(k, Get(s, attributes[|attributes| - 1])) then [Violation(attributes[|attributes| - 1], k.Name())] else [])
  {
  }

  lemma MultisetOfLast(xs: seq<FieldName>)
    requires xs != []
    ensures multiset(xs) == multiset(xs[..|xs| - 1]) + multiset{xs[|xs| - 1]}
  {
    assert xs == xs[..|xs| - 1] + [xs[|xs| - 1]];
  }

  /** A check over a property list reports a failing property once per time it is listed. */
  lemma {:induction false} CheckAttributesCount(attributes: seq<FieldName>, k: Kind, s: Shipment, x: Violation)
    requires WellFormed(s)
    ensures multiset(CheckAttributes(attributes, k, s))[x] ==
      if x.kind == k.Name() && Fails(k, Get(s, x.attribute)) then multiset(attributes)[x.attribute] else 0
  {
    if attributes != [] {
      var init := attributes[..|attributes| - 1];
      var f := attributes[|attributes| - 1];
      var tail: seq<Violation> := if Fails(k, Get(s, f)) then [Violation(f, k.Name())] else [];
      CheckAttributesLast(attributes, k, s);
      CheckAttributesCount(init, k, s, x);
      MultisetOfLast(attributes);
      assert multiset(CheckAttributes(attributes, k, s)) == multiset(CheckAttributes(init, k, s)) + multiset(tail);
    }
  }

  /** No entry after the first reports under the kind 'required'. */
  lemma RequiredOnlyFirst(s: Shipment, x: Violation)
    requires WellFormed(s) && x.kind == "required"
    ensures x !in CheckRules(Rules()[1..], s)
  {
    var later := Rules()[1..];
    forall j | 0 <= j < |later|
      ensures x !in CheckRule(later[j], s)
    {
      assert later[j] == Rules()[j + 1];
      RequiredRuleOfTable(j + 1);
    }
  }

  /** A property occurs once in a list without repetitions, if at all. */
  lemma {:induction false} DistinctCount(xs: seq<FieldName>, f: FieldName)
    requires forall i, j :: 0 <= i < j < |xs| ==> xs[i] != xs[j]
    ensures multiset(xs)[f] == if f in xs then 1 else 0
  {
    if xs != [] {
      var init := xs[..|xs| - 1];
      assert xs == init + [xs[|xs| - 1]];
      DistinctCount(init, f);
    }
  }

  /** The required rule lists each required property once. */
  lemma RequiredListedOnce(f: FieldName)
    ensures multiset(Rules()[0].attributes)[f] == if IsRequired(f) then 1 else 0
  {
    var required := Rules()[0].attributes;
    assert required == [Type, Code, CargoType, ConsigneeName, CityName, StreetName, BuildingNumber, PhoneNumber];
    RequiredRuleOfTable(0);
    DistinctCount(required, f);
  }

  /** The violations of the first entry come before those of all the others. */
  lemma ValidateFirst(s: Shipment)
    requires WellFormed(s)
    ensures Validate(s) == CheckRule(Rules()[0], s) + CheckRules(Rules()[1..], s)
  {
    var rules := Rules();
    SplitFirst(rules);
    CheckRulesAppend([rules[0]], rules[1..], s);
    CheckRulesSingle(rules[0], s);
  }

  lemma SplitFirst(rules: seq<Rule>)
    requires rules != []
    ensures rules == [rules[0]] + rules[1..]
  {
  }

  /** A table of one entry reports that entry's violations. */
  lemma CheckRulesSingle(rule: Rule, s: Shipment)
    requires WellFormed(s)
    ensures CheckRules([rule], s) == CheckRule(rule, s)
  {
    assert [rule][..0] == [];
    EmptyAppend(CheckRule(rule, s));
  }

  lemma EmptyAppend(x: seq<Violation>)
    ensures [] + x == x
  {
  }

  /** The required rule reports a property once if it is required and empty, and otherwise not at all. */
  lemma RequiredRuleCount(s: Shipment, f: FieldName)
    requires WellFormed(s)
    ensures multiset(CheckRule(Rules()[0], s))[Violation(f, "required")] ==
      if IsRequired(f) && IsEmptyValue(Get(s, f)) then 1 else 0
  {
    var rule := Rules()[0];
    assert rule == Rule([Type, Code, CargoType, ConsigneeName, CityName, StreetName, BuildingNumber, PhoneNumber], Required, Always);
    CheckAttributesCount(rule.attributes, Required, s, Violation(f, "required"));
    RequiredListedOnce(f);
  }

  /** A required property that is empty is reported exactly once under
      'required', and nothing else is reported under that kind. */
  lemma RequiredReportedOnce(s: Shipment, f: FieldName)
    requires WellFormed(s)
    ensures multiset(Validate(s))[Violation(f, "required")] == if IsRequired(f) && IsEmptyValue(Get(s, f)) then 1 else 0
  {
    var x := Violation(f, "required");
    var first := CheckRule(Rules()[0], s);
    var later := CheckRules(Rules()[1..], s);
    ValidateFirst(s);
    assert multiset(later)[x] == 0 by {
      RequiredOnlyFirst(s, x);
    }
    RequiredRuleCount(s, f);
    assert multiset(Validate(s)) == multiset(first) + multiset(later);
  }

  /** Only the five properties with a non-null default have a non-empty one. */
  lemma EmptyDefault(f: FieldName)
    requires IsEmptyValue(DefaultValue(f))
    ensures f != Type && f != Code && f != Stage && f != CargoType && f != ResponseType
  {
  }

  /** The required properties that have no default. */
  lemma RequiredWithoutDefault(f: FieldName)
    requires IsRequired(f) && f != Type && f != Code && f != CargoType
    ensures f in {ConsigneeName, CityName, StreetName, BuildingNumber, PhoneNumber}
  {
  }

  /** Every violation of a record holding the default values is a missing
      required property among consigneeName, cityName, streetName,
      buildingNumber and phoneNumber. */
  lemma DefaultViolationIsMissing(s: Shipment, x: Violation)
    requires WellFormed(s) && Get(s, x.attribute) == DefaultValue(x.attribute)
    ensures x in Validate(s) ==>
      x.kind == "required" && x.attribute in {ConsigneeName, CityName, StreetName, BuildingNumber, PhoneNumber}
  {
    if x in Validate(s) {
      var f := x.attribute;
      ViolationCauses(s, x);
      var v := Get(s, f);
      assert v == Null || f in {Type, Code, Stage, CargoType, ResponseType};
      if x.kind == "string" || x.kind == "match" {
        assert false;
      } else {
        assert x.kind == "required" && IsRequired(f) && IsEmptyValue(v);
        EmptyDefault(f);
        RequiredWithoutDefault(f);
      }
    }
  }

  /** Every violation of a default shipment is a missing required property without a default. */
  lemma DefaultShipmentOnlyMissing(x: Violation)
    ensures x in Validate(DefaultShipment()) ==>
      x.kind == "required" && x.attribute in {ConsigneeName, CityName, StreetName, BuildingNumber, PhoneNumber}
  {
    DefaultShipmentValues(x.attribute);
    DefaultViolationIsMissing(DefaultShipment(), x);
  }

  /** A default shipment reports each required property without a default as missing. */
  lemma DefaultShipmentMissing(f: FieldName)
    requires f in {ConsigneeName, CityName, StreetName, BuildingNumber, PhoneNumber}
    ensures Violation(f, "required") in Validate(DefaultShipment())
  {
    DefaultShipmentValues(f);
    EmptyRequiredIsReported(DefaultShipment(), f);
  }

  /** A default shipment fails exactly the required rule of consigneeName,
      cityName, streetName, buildingNumber and phoneNumber; type, code and
      cargoType are filled in by default. */
  lemma DefaultShipmentViolations()
    ensures forall x :: x in Validate(DefaultShipment()) <==>
      x.kind == "required" && x.attribute in {ConsigneeName, CityName, StreetName, BuildingNumber, PhoneNumber}
    ensures !IsEmptyValue(Get(DefaultShipment(), Type))
    ensures !IsEmptyValue(Get(DefaultShipment(), Code))
    ensures !IsEmptyValue(Get(DefaultShipment(), CargoType))
  {
    DefaultShipmentValues(Type);
    DefaultShipmentValues(Code);
    DefaultShipmentValues(CargoType);
    forall x: Violation
      ensures x in Validate(DefaultShipment()) <==>
        x.kind == "required" && x.attribute in {ConsigneeName, CityName, StreetName, BuildingNumber, PhoneNumber}
    {
      DefaultShipmentOnlyMissing(x);
      if x.kind == "required" && x.attribute in {ConsigneeName, CityName, StreetName, BuildingNumber, PhoneNumber} {
        DefaultShipmentMissing(x.attribute);
      }
    }
  }
}
