/** The shipment record of the freight carrier: its declared fields in
    declaration order with their defaults, reading and writing one field, and
    `fromArray`, which builds a record from a list of (field, value) pairs. */
module ShipmentRecord {
  import opened PhpValues

  /** The two shipment types (the Hebrew words for "delivery" and "collection"). */
  const TYPE_DELIVERIES: string := "\U{05DE}\U{05E1}\U{05D9}\U{05E8}\U{05D4}"
  const TYPE_RETURNS: string := "\U{05D0}\U{05D9}\U{05E1}\U{05D5}\U{05E3}"

  /** The public instance properties of a shipment, one constructor per
      property; the constructor is the property name with its first letter
      capitalised (`Type` is `type`, `N6` is `n6`). */
  datatype FieldName =
      Type | Code | Stage | CompanyName | N6 | CargoType | ReturnCargoType | ReturnPackagesNumber | N10
    | ConsigneeName | CityCode | CityName | StreetCode | StreetName | BuildingNumber | EntranceNumber | FloorNumber | ApartmentNumber | PhoneNumber
    | PhoneNumber2 | ReferenceNumber | PackagesNumber | AddressRemarks | ShipmentRemarks | ReferenceNumber2 | PickupDate | PickupTime | N29 | PaymentTypeCode
    | ConsigneeSum | ConsigneeDate | PaymentCollectionNotes | ReturnPickupPoint | PickupPoint | ResponseType | AutoPickupPoint | N38 | N39 | ConsigneeEmail
    | ParcelPreparationDate | ParcelPreparationTime

  const FieldCount: nat := 41

  /** The property declared at 0-based position `i`. */
  function FieldAt(i: nat): FieldName
    requires i < FieldCount
  {
    match i
    case 0 => Type
    case 1 => Code
    case 2 => Stage
    case 3 => CompanyName
    case 4 => N6
    case 5 => CargoType
    case 6 => ReturnCargoType
    case 7 => ReturnPackagesNumber
    case 8 => N10
    case 9 => ConsigneeName
    case 10 => CityCode
    case 11 => CityName
    case 12 => StreetCode
    case 13 => StreetName
    case 14 => BuildingNumber
    case 15 => EntranceNumber
    case 16 => FloorNumber
    case 17 => ApartmentNumber
    case 18 => PhoneNumber
    case 19 => PhoneNumber2
    case 20 => ReferenceNumber
    case 21 => PackagesNumber
    case 22 => AddressRemarks
    case 23 => ShipmentRemarks
    case 24 => ReferenceNumber2
    case 25 => PickupDate
    case 26 => PickupTime
    case 27 => N29
    case 28 => PaymentTypeCode
    case 29 => ConsigneeSum
    case 30 => ConsigneeDate
    case 31 => PaymentCollectionNotes
    case 32 => ReturnPickupPoint
    case 33 => PickupPoint
    case 34 => ResponseType
    case 35 => AutoPickupPoint
    case 36 => N38
    case 37 => N39
    case 38 => ConsigneeEmail
    case 39 => ParcelPreparationDate
    case _ => ParcelPreparationTime
  }

  /** The 0-based declaration position of `f`. */
  function Position(f: FieldName): (p: nat)
    ensures p < FieldCount
  {
    match f
    case Type => 0
    case Code => 1
    case Stage => 2
    case CompanyName => 3
    case N6 => 4
    case CargoType => 5
    case ReturnCargoType => 6
    case ReturnPackagesNumber => 7
    case N10 => 8
    case ConsigneeName => 9
    case CityCode => 10
    case CityName => 11
    case StreetCode => 12
    case StreetName => 13
    case BuildingNumber => 14
    case EntranceNumber => 15
    case FloorNumber => 16
    case ApartmentNumber => 17
    case PhoneNumber => 18
    case PhoneNumber2 => 19
    case ReferenceNumber => 20
    case PackagesNumber => 21
    case AddressRemarks => 22
    case ShipmentRemarks => 23
    case ReferenceNumber2 => 24
    case PickupDate => 25
    case PickupTime => 26
    case N29 => 27
    case PaymentTypeCode => 28
    case ConsigneeSum => 29
    case ConsigneeDate => 30
    case PaymentCollectionNotes => 31
    case ReturnPickupPoint => 32
    case PickupPoint => 33
    case ResponseType => 34
    case AutoPickupPoint => 35
    case N38 => 36
    case N39 => 37
    case ConsigneeEmail => 38
    case ParcelPreparationDate => 39
    case ParcelPreparationTime => 40
  }

  /** Every declared property, in declaration order. */
  const Declared: seq<FieldName> := seq(FieldCount, i requires 0 <= i < FieldCount => FieldAt(i))

  lemma DeclaredAtPosition(f: FieldName)
    ensures |Declared| == FieldCount && Declared[Position(f)] == f
  {
  }

  lemma PositionOfDeclared(i: nat)
    requires i < FieldCount
    ensures Position(Declared[i]) == i
  {
  }

  /** Each property is declared exactly once. */
  lemma DeclaredOnce()
    ensures forall f :: f in Declared
    ensures forall i, j :: 0 <= i < j < |Declared| ==> Declared[i] != Declared[j]
  {
    forall f ensures f in Declared {
      DeclaredAtPosition(f);
    }
    forall i, j | 0 <= i < j < |Declared|
      ensures Declared[i] != Declared[j]
    {
      PositionOfDeclared(i);
      PositionOfDeclared(j);
    }
  }

  /** The initial value of each property in a freshly constructed shipment. */
  function DefaultValue(f: FieldName): Value
  {
    match f
    case Type => Str(TYPE_DELIVERIES)
    case Code => Int(140)
    case Stage => Int(4)
    case CargoType => Int(199)
    case ResponseType => Str("XML")
    case _ => Null
  }

  datatype Field = Field(name: FieldName, value: Value)

  /** A shipment as the ordered list of its properties (what `get_object_vars` yields). */
  type Shipment = seq<Field>

  /** The record holds exactly the declared properties, in declaration order. */
  predicate WellFormed(s: Shipment) {
    |s| == FieldCount && forall i :: 0 <= i < |s| ==> s[i].name == FieldAt(i)
  }

  lemma PositionsOfDeclared()
    ensures forall i :: 0 <= i < FieldCount ==> Position(Declared[i]) == i
  {
    forall i | 0 <= i < FieldCount ensures Position(Declared[i]) == i {
      PositionOfDeclared(i);
    }
  }

  /** `$shipment->f`: the value of the one property named `f`. */
  function Get(s: Shipment, f: FieldName): (v: Value)
    requires WellFormed(s)
    ensures Field(f, v) in s
    ensures forall i :: 0 <= i < |s| && s[i].name == f ==> s[i].value == v
  {
    GetAt(s, f);
    s[Position(f)].value
  }

  lemma GetAt(s: Shipment, f: FieldName)
    requires WellFormed(s)
    ensures Position(f) < |s| && s[Position(f)].name == f
    ensures forall i :: 0 <= i < |s| && s[i].name == f ==> i == Position(f)
  {
    DeclaredAtPosition(f);
    PositionsOfDeclared();
  }

  /** `$shipment->f = v`: overwrite the property named `f`, in place. */
  function Set(s: Shipment, f: FieldName, v: Value): (r: Shipment)
    ensures |r| == |s|
    ensures forall i :: 0 <= i < |s| ==> r[i].name == s[i].name
    ensures forall i :: 0 <= i < |s| ==> r[i].value == if s[i].name == f then v else s[i].value
  {
    if s == [] then [] else [if s[0].name == f then Field(f, v) else s[0]] + Set(s[1..], f, v)
  }

  /** Writing a property keeps the layout, stores the value, and leaves every other property alone. */
  lemma SetThenGet(s: Shipment, f: FieldName, v: Value, g: FieldName)
    requires WellFormed(s)
    ensures WellFormed(Set(s, f, v))
    ensures Get(Set(s, f, v), f) == v
    ensures g != f ==> Get(Set(s, f, v), g) == Get(s, g)
  {
    DeclaredAtPosition(f);
    DeclaredAtPosition(g);
  }

  /** A newly constructed shipment: every property at its declared default. */
  function DefaultShipment(): (r: Shipment)
    ensures WellFormed(r)
  {
    seq(FieldCount, i requires 0 <= i < FieldCount => Field(Declared[i], DefaultValue(Declared[i])))
  }

  /** The defaults: type is TYPE_DELIVERIES, code 140, stage 4, cargoType 199,
      responseType 'XML', every other property null. */
  lemma DefaultShipmentValues(f: FieldName)
    ensures Get(DefaultShipment(), f) ==
      if f == Type then Str(TYPE_DELIVERIES)
      else if f == Code then Int(140)
      else if f == Stage then Int(4)
      else if f == CargoType then Int(199)
      else if f == ResponseType then Str("XML")
      else Null
  {
    DeclaredAtPosition(f);
  }

  /** The value the last pair naming `f` in `data` carries, or `otherwise` when none does. */
  function LastAssigned(data: seq<(FieldName, Value)>, f: FieldName, otherwise: Value): Value
  {
    if data == [] then otherwise
    else if data[|data| - 1].0 == f then data[|data| - 1].1
    else LastAssigned(data[..|data| - 1], f, otherwise)
  }

  /** The shipment `fromArray(data)` builds: each property takes the value
      `data` last assigns it, or keeps its default. */
  function Built(data: seq<(FieldName, Value)>): Shipment
  {
    seq(FieldCount, i requires 0 <= i < FieldCount =>
      Field(Declared[i], LastAssigned(data, Declared[i], DefaultValue(Declared[i]))))
  }

  /** Assigning one more pair is writing one more property. */
  lemma BuiltStep(data: seq<(FieldName, Value)>, f: FieldName, v: Value)
    ensures Built(data + [(f, v)]) == Set(Built(data), f, v)
  {
    var d := data + [(f, v)];
    assert d[..|d| - 1] == data;
  }

  /** `fromArray([])` is the default shipment. */
  lemma BuiltFromNothing()
    ensures Built([]) == DefaultShipment()
  {
  }

  /** Every property not named in `data` keeps its default; a property named
      once takes the value given; the layout is always the declared one. */
  lemma BuiltValues(data: seq<(FieldName, Value)>, f: FieldName)
    ensures WellFormed(Built(data))
    ensures (forall k :: 0 <= k < |data| ==> data[k].0 != f) ==> Get(Built(data), f) == DefaultValue(f)
    ensures forall k :: 0 <= k < |data| && data[k].0 == f && (forall m :: k < m < |data| ==> data[m].0 != f) ==>
      Get(Built(data), f) == data[k].1
  {
    DeclaredAtPosition(f);
    if forall k :: 0 <= k < |data| ==> data[k].0 != f {
      LastAssignedNone(data, f, DefaultValue(f));
    }
    forall k | 0 <= k < |data| && data[k].0 == f && (forall m :: k < m < |data| ==> data[m].0 != f)
      ensures Get(Built(data), f) == data[k].1
    {
      LastAssignedLast(data, f, DefaultValue(f), k);
    }
  }

  /** With no pair naming `f`, the fallback stays. */
  lemma {:induction false} LastAssignedNone(data: seq<(FieldName, Value)>, f: FieldName, otherwise: Value)
    requires forall k :: 0 <= k < |data| ==> data[k].0 != f
    ensures LastAssigned(data, f, otherwise) == otherwise
  {
    if data != [] {
      var init := data[..|data| - 1];
      assert forall k :: 0 <= k < |init| ==> init[k] == data[k];
      LastAssignedNone(init, f, otherwise);
    }
  }

  /** The last pair naming `f` wins. */
  lemma {:induction false} LastAssignedLast(data: seq<(FieldName, Value)>, f: FieldName, otherwise: Value, k: nat)
    requires k < |data| && data[k].0 == f
    requires forall m :: k < m < |data| ==> data[m].0 != f
    ensures LastAssigned(data, f, otherwise) == data[k].1
  {
    if k < |data| - 1 {
      var init := data[..|data| - 1];
      assert forall m :: k < m < |init| ==> init[m] == data[m];
      LastAssignedLast(init, f, otherwise, k);
    }
  }

  /** `Shipment::fromArray`: start from a new shipment and assign the pairs of
      `data` one by one, in order. */
  method FromArray(data: seq<(FieldName, Value)>) returns (r: Shipment)
    ensures WellFormed(r)
    ensures r == Built(data)
  {
    r := DefaultShipment();
    BuiltFromNothing();
    var k := 0;
    while k < |data|
      invariant 0 <= k <= |data|
      invariant r == Built(data[..k])
    {
      BuiltStep(data[..k], data[k].0, data[k].1);
      assert data[..k + 1] == data[..k] + [data[k]];
      r := Set(r, data[k].0, data[k].1);
      k := k + 1;
    }
    assert data[..k] == data;
  }
}
