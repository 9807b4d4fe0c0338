/** `Apartment.from_raw_apartment`: one row of the listings table becomes an `Apartment`. The
    row's outer columns are copied under their snake-case names, `location` is also parsed into
    an `Address`, and the JSON text of `details` is decoded and parsed into `Details`. */
module Apartments {
  import opened Wrappers
  import opened Addresses
  import opened DetailsParser

  /** A non-NULL cell of the row: SQLite gives text or numbers. */
  datatype Cell = TextCell(text: string) | NumberCell(number: int)

  /** The row as its `items()`: column name and cell, `None` for SQL `NULL`. */
  type RawApartment = seq<(string, Option<Cell>)>

  /** The `Apartment` dataclass. The outer fields hold the cell as it came; `None` is both a
      missing column and a `NULL` cell. */
  datatype Apartment = Apartment(
    id: Option<Cell>,
    title: Option<Cell>,
    propertyPriceEuros: Option<Cell>,
    pricePerSqm: Option<Cell>,
    monthlyCommunityFeesEuros: Option<Cell>,
    location: Option<Cell>,
    description: Option<Cell>,
    address: Option<Address>,
    details: Option<Details>)

  /** Every field `None`. */
  const NoApartment := Apartment(None, None, None, None, None, None, None, None, None)

  /** The ways one row makes the conversion raise. */
  datatype ApartmentError =
    | LocationNotText                    // `None.split(",")` / `int.split(",")`
    | BadLocation(segments: LocationError) // fewer than three segments
    | DetailsNotText                     // `json.loads(None)` / `json.loads(int)`
    | InvalidJson(text: string)          // `json.JSONDecodeError`
    | BadDetails(segment: DetailsError)    // a detail segment without its number

  /** The fields filled straight from a column. */
  datatype OuterField = Id | Title | PropertyPrice | PricePerSqm | CommunityFees | Description | Location

  /** The column name each outer field is copied from. */
  function ColumnOf(field: OuterField): string {
    match field
    case Id => "id"
    case Title => "title"
    case PropertyPrice => "propertyPrice"
    case PricePerSqm => "pricePerSqm"
    case CommunityFees => "communityFees"
    case Description => "description"
    case Location => "location"
  }

  /** `outer_keys_map`: the field a column is copied into, if any. */
  function OuterFieldOf(key: string): (r: Option<OuterField>)
    ensures forall field :: r == Some(field) <==> ColumnOf(field) == key
  {
    if key == "id" then Some(Id)
    else if key == "title" then Some(Title)
    else if key == "propertyPrice" then Some(PropertyPrice)
    else if key == "pricePerSqm" then Some(PricePerSqm)
    else if key == "communityFees" then Some(CommunityFees)
    else if key == "description" then Some(Description)
    else if key == "location" then Some(Location)
    else None
  }

  function Outer(ap: Apartment, field: OuterField): Option<Cell> {
    match field
    case Id => ap.id
    case Title => ap.title
    case PropertyPrice => ap.propertyPriceEuros
    case PricePerSqm => ap.pricePerSqm
    case CommunityFees => ap.monthlyCommunityFeesEuros
    case Description => ap.description
    case Location => ap.location
  }

  /** `apartment_info[outer_keys_map[key]] = value`: that field changes and no other. */
  function SetOuter(ap: Apartment, field: OuterField, value: Option<Cell>): (r: Apartment)
    ensures forall other :: Outer(r, other) == if other == field then value else Outer(ap, other)
    ensures r.address == ap.address && r.details == ap.details
  {
    match field
    case Id => ap.(id := value)
    case Title => ap.(title := value)
    case PropertyPrice => ap.(propertyPriceEuros := value)
    case PricePerSqm => ap.(pricePerSqm := value)
    case CommunityFees => ap.(monthlyCommunityFeesEuros := value)
    case Description => ap.(description := value)
    case Location => ap.(location := value)
  }

  /** `Address.from_location(value)`; only text can be split. */
  function ParseLocation(value: Option<Cell>): (r: Result<Address, ApartmentError>)
    ensures r.Success? <==> value.Some? && value.value.TextCell? && FromLocation(value.value.text).Success?
    ensures r.Success? ==> r == Success(FromLocation(value.value.text).value)
  {
    match value
    case Some(TextCell(location)) =>
      (match FromLocation(location)
       case Success(address) => Success(address)
       case Failure(cause) => Failure(BadLocation(cause)))
    case _ => Failure(LocationNotText)
  }

  /** `Details.from_raw_details(raw_details=json.loads(value))`. The JSON decoder is the
      parameter `decode`, which gives `None` on text that is not valid JSON. */
  function ParseDetails(value: Option<Cell>, decode: string -> Option<RawDetails>): (r: Result<Details, ApartmentError>)
    ensures r.Success? <==>
              && value.Some? && value.value.TextCell? && decode(value.value.text).Some?
              && FromRawDetails(decode(value.value.text).value).Success?
    ensures r.Success? ==> r == Success(FromRawDetails(decode(value.value.text).value).value)
  {
    match value
    case Some(TextCell(text)) =>
      (match decode(text)
       case None => Failure(InvalidJson(text))
       case Some(raw) =>
         match FromRawDetails(raw)
         case Success(details) => Success(details)
         case Failure(cause) => Failure(BadDetails(cause)))
    case _ => Failure(DetailsNotText)
  }

  /** The parsed value, or `None` where parsing raises. */
  function AddressOf(value: Option<Cell>): Option<Address> {
    match ParseLocation(value)
    case Success(address) => Some(address)
    case Failure(_) => None
  }

  function DetailsOf(value: Option<Cell>, decode: string -> Option<RawDetails>): Option<Details> {
    match ParseDetails(value, decode)
    case Success(details) => Some(details)
    case Failure(_) => None
  }

  /** The column `key` with cell `value` makes the loop raise. */
  predicate Rejects(key: string, value: Option<Cell>, decode: string -> Option<RawDetails>) {
    || (key == "location" && ParseLocation(value).Failure?)
    || (key == "details" && ParseDetails(value, decode).Failure?)
  }

  /** The parsing half of one pass: `location` becomes the address and `details` the details;
      the copied columns are left alone. */
  function Parse(ap: Apartment, key: string, value: Option<Cell>, decode: string -> Option<RawDetails>)
    : (r: Result<Apartment, ApartmentError>)
    ensures r.Failure? <==> Rejects(key, value, decode)
    ensures r.Success? ==> r.value == ap.(address := r.value.address, details := r.value.details)
  {
    if key == "location" then
      var address :- ParseLocation(value);
      Success(ap.(address := Some(address)))
    else if key == "details" then
      var details :- ParseDetails(value, decode);
      Success(ap.(details := Some(details)))
    else
      Success(ap)
  }

  /** The copying half of one pass: an outer column goes into its own field and no other. */
  function Copy(ap: Apartment, key: string, value: Option<Cell>): (r: Apartment)
    ensures forall field :: Outer(r, field) == if ColumnOf(field) == key then value else Outer(ap, field)
    ensures r.address == ap.address && r.details == ap.details
  {
    match OuterFieldOf(key)
    case Some(field) => SetOuter(ap, field, value)
    case None => ap
  }

  /** One pass of the loop: parse `location` or `details`, then copy an outer column; any
      other column is ignored. `details` is not an outer column, so the source's `elif` and
      this sequence agree. */
  function Visit(ap: Apartment, key: string, value: Option<Cell>, decode: string -> Option<RawDetails>)
    : (r: Result<Apartment, ApartmentError>)
    ensures r.Failure? <==> Rejects(key, value, decode)
  {
    var parsed :- Parse(ap, key, value, decode);
    Success(Copy(parsed, key, value))
  }

  /** A column is copied into its own field and no other. */
  lemma VisitCopies(ap: Apartment, key: string, value: Option<Cell>, decode: string -> Option<RawDetails>, field: OuterField)
    requires Visit(ap, key, value, decode).Success?
    ensures Outer(Visit(ap, key, value, decode).value, field) == if ColumnOf(field) == key then value else Outer(ap, field)
  {
    var parsed := Parse(ap, key, value, decode).value;
    assert parsed == ap.(address := parsed.address, details := parsed.details);
  }

  /** Only a `location` column changes the address. */
  lemma VisitAddress(ap: Apartment, key: string, value: Option<Cell>, decode: string -> Option<RawDetails>)
    requires Visit(ap, key, value, decode).Success?
    ensures Visit(ap, key, value, decode).value.address == if key == "location" then AddressOf(value) else ap.address
  {
  }

  /** Only a `details` column changes the details. */
  lemma VisitDetails(ap: Apartment, key: string, value: Option<Cell>, decode: string -> Option<RawDetails>)
    requires Visit(ap, key, value, decode).Success?
    ensures Visit(ap, key, value, decode).value.details == if key == "details" then DetailsOf(value, decode) else ap.details
  {
  }

  /** The cell of the last column named `key`; `None` when there is no such column. */
  function LastValue(raw: RawApartment, key: string): (r: Option<Option<Cell>>)
    ensures r.None? <==> forall i | 0 <= i < |raw| :: raw[i].0 != key
    ensures r.Some? ==>
              exists i | 0 <= i < |raw| ::
                && raw[i] == (key, r.value)
                && forall j | i < j < |raw| :: raw[j].0 != key
    decreases |raw|
  {
    if |raw| == 0 then
      None
    else
      var later := LastValue(raw[1..], key);
      assert forall i | 1 <= i < |raw| :: raw[i] == raw[1..][i - 1];
      if later.Some? then later
      else if raw[0].0 == key then Some(raw[0].1)
      else None
  }

  /** The loop over the columns of the row, stopping at the first column that raises. */
  function Build(ap: Apartment, raw: RawApartment, decode: string -> Option<RawDetails>)
    : Result<Apartment, ApartmentError>
    decreases |raw|
  {
    if |raw| == 0 then
      Success(ap)
    else
      var next :- Visit(ap, raw[0].0, raw[0].1, decode);
      Build(next, raw[1..], decode)
  }

  /** The loop raises exactly when some `location` or `details` column cannot be parsed. */
  lemma {:induction false} BuildFails(ap: Apartment, raw: RawApartment, decode: string -> Option<RawDetails>)
    ensures Build(ap, raw, decode).Failure? <==> exists i | 0 <= i < |raw| :: Rejects(raw[i].0, raw[i].1, decode)
    decreases |raw|
  {
    if |raw| > 0 {
      var step := Visit(ap, raw[0].0, raw[0].1, decode);
      if step.Success? {
        BuildFails(step.value, raw[1..], decode);
      }
      assert forall i | 1 <= i < |raw| :: raw[i] == raw[1..][i - 1];
    }
  }

  /** Each outer field holds the cell of the last column of that name, or what it held
      before when there is none. */
  lemma {:induction false} BuildCopies(ap: Apartment, raw: RawApartment, decode: string -> Option<RawDetails>, field: OuterField)
    requires Build(ap, raw, decode).Success?
    ensures Outer(Build(ap, raw, decode).value, field) ==
            match LastValue(raw, ColumnOf(field)) case Some(value) => value case None => Outer(ap, field)
    decreases |raw|
  {
    if |raw| > 0 {
      VisitCopies(ap, raw[0].0, raw[0].1, decode, field);
      BuildCopies(Visit(ap, raw[0].0, raw[0].1, decode).value, raw[1..], decode, field);
    }
  }

  /** The address is parsed from the last `location` column; without one it stays as it was. */
  lemma {:induction false} BuildAddress(ap: Apartment, raw: RawApartment, decode: string -> Option<RawDetails>)
    requires Build(ap, raw, decode).Success?
    ensures Build(ap, raw, decode).value.address ==
            match LastValue(raw, "location") case Some(value) => AddressOf(value) case None => ap.address
    ensures LastValue(raw, "location").Some? ==> Build(ap, raw, decode).value.address.Some?
    decreases |raw|
  {
    if |raw| > 0 {
      VisitAddress(ap, raw[0].0, raw[0].1, decode);
      BuildAddress(Visit(ap, raw[0].0, raw[0].1, decode).value, raw[1..], decode);
    }
  }

  /** The details are parsed from the last `details` column; without one they stay as they
      were. */
  lemma {:induction false} BuildDetails(ap: Apartment, raw: RawApartment, decode: string -> Option<RawDetails>)
    requires Build(ap, raw, decode).Success?
    ensures Build(ap, raw, decode).value.details ==
            match LastValue(raw, "details") case Some(value) => DetailsOf(value, decode) case None => ap.details
    ensures LastValue(raw, "details").Some? ==> Build(ap, raw, decode).value.details.Some?
    decreases |raw|
  {
    if |raw| > 0 {
      VisitDetails(ap, raw[0].0, raw[0].1, decode);
      BuildDetails(Visit(ap, raw[0].0, raw[0].1, decode).value, raw[1..], decode);
    }
  }

  /** A column the conversion knows: an outer column or `details`. */
  predicate Known(key: string) {
    OuterFieldOf(key).Some? || key == "details"
  }

  /** The columns of `raw` the conversion knows, in order. */
  function KnownColumns(raw: RawApartment): (r: RawApartment)
    ensures forall i | 0 <= i < |r| :: Known(r[i].0)
    ensures forall c | c in r :: c in raw
    ensures forall c | c in raw && Known(c.0) :: c in r
    decreases |raw|
  {
    if |raw| == 0 then []
    else if Known(raw[0].0) then [raw[0]] + KnownColumns(raw[1..])
    else KnownColumns(raw[1..])
  }

  /** The loop on a row is the first pass followed by the loop on the rest. */
  lemma BuildFirst(ap: Apartment, raw: RawApartment, decode: string -> Option<RawDetails>)
    requires |raw| > 0
    ensures Build(ap, raw, decode) ==
            match Visit(ap, raw[0].0, raw[0].1, decode)
            case Success(next) => Build(next, raw[1..], decode)
            case Failure(e) => Failure(e)
  {
  }

  /** Columns the conversion does not know are ignored: dropping them changes nothing. */
  lemma {:induction false} UnknownColumnsIgnored(ap: Apartment, raw: RawApartment, decode: string -> Option<RawDetails>)
    ensures Build(ap, raw, decode) == Build(ap, KnownColumns(raw), decode)
    decreases |raw|
  {
    if |raw| > 0 {
      BuildFirst(ap, raw, decode);
      if Known(raw[0].0) {
        var known := KnownColumns(raw);
        KnownColumnsFirst(raw);
        BuildFirst(ap, known, decode);
        var step := Visit(ap, raw[0].0, raw[0].1, decode);
        if step.Success? {
          UnknownColumnsIgnored(step.value, raw[1..], decode);
        }
      } else {
        VisitUnknown(ap, raw[0].0, raw[0].1, decode);
        UnknownColumnsIgnored(ap, raw[1..], decode);
      }
    }
  }

  /** A known first column stays first among the known columns. */
  lemma KnownColumnsFirst(raw: RawApartment)
    requires |raw| > 0 && Known(raw[0].0)
    ensures |KnownColumns(raw)| > 0
    ensures KnownColumns(raw)[0] == raw[0] && KnownColumns(raw)[1..] == KnownColumns(raw[1..])
  {
    assert KnownColumns(raw) == [raw[0]] + KnownColumns(raw[1..]);
  }

  /** A pass over a column the conversion does not know changes nothing. */
  lemma VisitUnknown(ap: Apartment, key: string, value: Option<Cell>, decode: string -> Option<RawDetails>)
    requires !Known(key)
    ensures Visit(ap, key, value, decode) == Success(ap)
  {
    assert ColumnOf(Location) == "location";
  }

  /** `Apartment.from_raw_apartment`: the loop run from an apartment with every field `None`. */
  function FromRawApartment(raw: RawApartment, decode: string -> Option<RawDetails>): Result<Apartment, ApartmentError> {
    Build(NoApartment, raw, decode)
  }

  /** A converted row: the address is present exactly when the row has a `location` column
      and the details exactly when it has a `details` column. */
  lemma FromRawApartmentParts(raw: RawApartment, decode: string -> Option<RawDetails>)
    requires FromRawApartment(raw, decode).Success?
    ensures FromRawApartment(raw, decode).value.address.Some? <==> exists i | 0 <= i < |raw| :: raw[i].0 == "location"
    ensures FromRawApartment(raw, decode).value.details.Some? <==> exists i | 0 <= i < |raw| :: raw[i].0 == "details"
  {
    BuildAddress(NoApartment, raw, decode);
    BuildDetails(NoApartment, raw, decode);
  }

  /** The conversion raises exactly when some `location` or `details` column cannot be
      parsed. */
  lemma FromRawApartmentFails(raw: RawApartment, decode: string -> Option<RawDetails>)
    ensures FromRawApartment(raw, decode).Failure? <==> exists i | 0 <= i < |raw| :: Rejects(raw[i].0, raw[i].1, decode)
  {
    BuildFails(NoApartment, raw, decode);
  }

  /** Each outer field holds the cell of the last column of its name, and is `None` when the
      row has no such column. */
  lemma FromRawApartmentCopies(raw: RawApartment, decode: string -> Option<RawDetails>, field: OuterField)
    requires FromRawApartment(raw, decode).Success?
    ensures Outer(FromRawApartment(raw, decode).value, field) ==
            match LastValue(raw, ColumnOf(field)) case Some(value) => value case None => None
  {
    BuildCopies(NoApartment, raw, decode, field);
  }
}
