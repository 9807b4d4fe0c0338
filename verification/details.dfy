/** `Details.from_raw_details`: every text segment of the decoded details goes through one
    long `if/elif` chain of keyword rules that updates a single flat record. */
module DetailsParser {
  import opened Wrappers
  import opened Text
  import opened Utils

  /** The `Details` dataclass. Its fields are grouped by the kind of branch that writes
      them: the figures read off a segment, the amenity flags (held as the set of those
      that are `True`), and the descriptive texts. */
  datatype Details = Details(figures: Figures, amenities: set<Amenity>, notes: Notes)

  /** Python's `float` areas and energy figures are whole numbers here: they only ever come
      from a run of digits. `inside` sits with the floor, whose branch also sets it. */
  datatype Figures = Figures(
    nRooms: Option<nat>,
    sqmConstructed: Option<nat>,
    sqmUsable: Option<nat>,
    bathrooms: Option<nat>,
    builtIn: Option<nat>,
    floor: Option<nat>,
    inside: Option<bool>,
    kwhSqmYearEmissions: Option<nat>,
    kgCo2SqmYearConsumption: Option<nat>)

  datatype Notes = Notes(
    state: Option<string>,
    orientation: Option<string>,
    heating: Option<string>,
    reducedMobility: Option<string>,
    garage: Option<string>,
    extra: Option<string>,
    elevator: Option<bool>,
    tenant: Option<string>,
    certificate: Option<string>)

  /** `Details()`: no value set, every amenity `False`. */
  const NoDetails := Details(
    Figures(None, None, None, None, None, None, None, None, None),
    {},
    Notes(None, None, None, None, None, None, None, None, None))

  /** The branches of the keyword chain; `Unmatched` is its final `else`. */
  datatype Rule =
    | JointAreas | ConstructedArea | UsableArea | Rooms | Bathrooms
    | TerraceAndBalcony | Terrace | Balcony | SecondHand | Orientation | ConstructionYear
    | Heating | ReducedMobility | Garage | NoElevator | WithElevator | Floor
    | Interior | Exterior | Emissions | Consumption | CertificateConsumption | EnergyNoise
    | CertificateStatus | TenantStatus | StorageRoom | AirConditioning | BuiltInWardrobes
    | SemiDetachedHouse | GreenAreas | Pool | NewBuildingDevelopment
    | Unmatched

  /** The number of guarded branches. */
  const GuardCount: nat := 32

  /** The position of a branch in the chain; the final `else` comes after every guard. */
  function Rank(rule: Rule): nat {
    match rule
    case JointAreas => 0
    case ConstructedArea => 1
    case UsableArea => 2
    case Rooms => 3
    case Bathrooms => 4
    case TerraceAndBalcony => 5
    case Terrace => 6
    case Balcony => 7
    case SecondHand => 8
    case Orientation => 9
    case ConstructionYear => 10
    case Heating => 11
    case ReducedMobility => 12
    case Garage => 13
    case NoElevator => 14
    case WithElevator => 15
    case Floor => 16
    case Interior => 17
    case Exterior => 18
    case Emissions => 19
    case Consumption => 20
    case CertificateConsumption => 21
    case EnergyNoise => 22
    case CertificateStatus => 23
    case TenantStatus => 24
    case StorageRoom => 25
    case AirConditioning => 26
    case BuiltInWardrobes => 27
    case SemiDetachedHouse => 28
    case GreenAreas => 29
    case Pool => 30
    case NewBuildingDevelopment => 31
    case Unmatched => 32
  }

  /** The condition of each branch, on the section name `key` and the segment `v`. */
  predicate Guard(rule: Rule, key: string, v: string) {
    match rule
    case JointAreas => Contains(v, " m² construidos, ") && Contains(v, " m² útiles")
    case ConstructedArea => Contains(v, "m² construidos")
    case UsableArea => Contains(v, "m² útiles")
    case Rooms => Contains(v, "habitación") || Contains(v, "habitaciones")
    case Bathrooms => Contains(v, "baño")
    case TerraceAndBalcony => Contains(v, "Terraza y balcón")
    case Terrace => Contains(v, "Terraza")
    case Balcony => Contains(v, "Balcón")
    case SecondHand => Contains(v, "Segunda mano")
    case Orientation => Contains(v, "Orientación")
    case ConstructionYear => Contains(v, "Construido en ")
    case Heating => Contains(Lower(v), "calefacción")
    case ReducedMobility => Contains(v, "movilidad reducida")
    case Garage => Contains(v, "garaje")
    case NoElevator => Contains(v, "Sin ascensor")
    case WithElevator => Contains(v, "Con ascensor")
    case Floor => Contains(Lower(v), "planta ") || Contains(v, "Bajo")
    case Interior => Contains(v, "interior")
    case Exterior => Contains(v, "exterior")
    case Emissions => Contains(v, "Emisiones: \n")
    case Consumption => Contains(v, "Consumo: \n")
    case CertificateConsumption => Contains(key, "Certificado") && Contains(v, "Consumo:")
    case EnergyNoise => Contains(v, "Consumo:") || Contains(v, "Emisiones:") || Contains(v, "No indicado")
    case CertificateStatus =>
      Contains(v, "Inmueble exento") || Contains(v, "En trámite") || Contains(v, "No indicado")
    case TenantStatus => Contains(v, "Alquilada, con inquilinos") || Contains(v, "Ocupada ilegalmente")
    case StorageRoom => Contains(v, "Trastero")
    case AirConditioning => Contains(v, "Aire acondicionado")
    case BuiltInWardrobes => Contains(v, "Armarios empotrados")
    case SemiDetachedHouse => Contains(v, "Chalet adosado")
    case GreenAreas => Contains(v, "Zonas verdes")
    case Pool => Contains(v, "Piscina")
    case NewBuildingDevelopment => Contains(v, "Promoción de obra nueva")
    case Unmatched => true
  }

  /** The guarded branch at position `i` of the chain, in the order the chain tries them. The
      table is kept in four quarters of eight so that each proof about it stays small. */
  function RuleAt(i: nat): (rule: Rule)
    requires i < GuardCount
    ensures Rank(rule) == i
  {
    if i < 8 then RuleAt0(i) else if i < 16 then RuleAt1(i - 8) else if i < 24 then RuleAt2(i - 16) else RuleAt3(i - 24)
  }

  function RuleAt0(i: nat): (rule: Rule)
    requires i < 8
    ensures Rank(rule) == i + 0
  {
    match i
    case 0 => JointAreas
    case 1 => ConstructedArea
    case 2 => UsableArea
    case 3 => Rooms
    case 4 => Bathrooms
    case 5 => TerraceAndBalcony
    case 6 => Terrace
    case _ => Balcony
  }

  function RuleAt1(i: nat): (rule: Rule)
    requires i < 8
    ensures Rank(rule) == i + 8
  {
    match i
    case 0 => SecondHand
    case 1 => Orientation
    case 2 => ConstructionYear
    case 3 => Heating
    case 4 => ReducedMobility
    case 5 => Garage
    case 6 => NoElevator
    case _ => WithElevator
  }

  function RuleAt2(i: nat): (rule: Rule)
    requires i < 8
    ensures Rank(rule) == i + 16
  {
    match i
    case 0 => Floor
    case 1 => Interior
    case 2 => Exterior
    case 3 => Emissions
    case 4 => Consumption
    case 5 => CertificateConsumption
    case 6 => EnergyNoise
    case _ => CertificateStatus
  }

  function RuleAt3(i: nat): (rule: Rule)
    requires i < 8
    ensures Rank(rule) == i + 24
  {
    match i
    case 0 => TenantStatus
    case 1 => StorageRoom
    case 2 => AirConditioning
    case 3 => BuiltInWardrobes
    case 4 => SemiDetachedHouse
    case 5 => GreenAreas
    case 6 => Pool
    case _ => NewBuildingDevelopment
  }

  /** Every guarded branch sits in the chain at its rank. */
  lemma OrderAt(rule: Rule)
    requires rule != Unmatched
    ensures Rank(rule) < GuardCount && RuleAt(Rank(rule)) == rule
  {
  }

  /** The first branch from position `from` on whose guard holds. */
  function FirstFiring(key: string, v: string, from: nat): (rule: Rule)
    requires from <= GuardCount
    ensures Guard(rule, key, v) && from <= Rank(rule)
    ensures forall j | from <= j < Rank(rule) :: !Guard(RuleAt(j), key, v)
    decreases GuardCount - from
  {
    if from == GuardCount then
      Unmatched
    else if Guard(RuleAt(from), key, v) then
      RuleAt(from)
    else
      FirstFiring(key, v, from + 1)
  }

  /** The one branch of the chain that a segment runs: its guard holds and the guard of
      every branch before it fails. */
  function Classify(key: string, v: string): (rule: Rule)
    ensures Guard(rule, key, v)
    ensures forall j | 0 <= j < Rank(rule) :: !Guard(RuleAt(j), key, v)
  {
    FirstFiring(key, v, 0)
  }

  /** Only the first branch whose guard holds runs, so one segment triggers one branch. */
  lemma ClassifyUnique(key: string, v: string, rule: Rule)
    requires Guard(rule, key, v)
    requires forall j | 0 <= j < Rank(rule) :: !Guard(RuleAt(j), key, v)
    ensures Classify(key, v) == rule
  {
    FirstGuardUnique(key, v, Classify(key, v), rule);
  }

  /** Two branches that both hold with no earlier guard holding are the same branch. */
  lemma FirstGuardUnique(key: string, v: string, a: Rule, b: Rule)
    requires Guard(a, key, v) && forall j | 0 <= j < Rank(a) :: !Guard(RuleAt(j), key, v)
    requires Guard(b, key, v) && forall j | 0 <= j < Rank(b) :: !Guard(RuleAt(j), key, v)
    ensures a == b
  {
    if a != Unmatched {
      FiresNoLater(key, v, a, b);
    }
    if b != Unmatched {
      FiresNoLater(key, v, b, a);
    }
    RankInjective(a, b);
  }

  /** No two branches share a position in the chain. */
  lemma RankInjective(a: Rule, b: Rule)
    requires Rank(a) == Rank(b)
    ensures a == b
  {
    if a != Unmatched {
      OrderAt(a);
    }
    if b != Unmatched {
      OrderAt(b);
    }
  }

  /** A guarded branch whose guard holds is not passed over by a first-firing branch. */
  lemma FiresNoLater(key: string, v: string, fires: Rule, first: Rule)
    requires fires != Unmatched && Guard(fires, key, v)
    requires forall j | 0 <= j < Rank(first) :: !Guard(RuleAt(j), key, v)
    ensures Rank(first) <= Rank(fires)
  {
    OrderAt(fires);
  }

  /** A `re.search(...).group(1)` on a search that found nothing raises. */
  datatype DetailsError = NoNumber(key: string, segment: string)

  /** `re.search(r"(\d+)", v).group(1)`, as a number. */
  function FirstNumber(key: string, v: string): (r: Result<nat, DetailsError>)
    ensures r.Failure? <==> NoDigit(v)
    ensures r.Failure? ==> r.error == NoNumber(key, v)
    ensures r.Success? ==> exists start, run :: IsFirstDigitRun(v, start, run) && r.value == DigitsValue(run)
  {
    match GetDigit(v)
    case None => Failure(NoNumber(key, v))
    case Some(run) => Success(DigitsValue(run))
  }

  /** `re.search(r"(\d+)(?=ª)", v).group(1)`, as a number. */
  function FloorNumber(key: string, v: string): (r: Result<nat, DetailsError>)
    ensures r.Failure? <==> forall i | 0 <= i < |v| :: !DigitBeforeMark(v, i)
    ensures r.Failure? ==> r.error == NoNumber(key, v)
    ensures r.Success? ==> exists start, run :: IsFirstOrdinalRun(v, start, run) && r.value == DigitsValue(run)
  {
    match OrdinalDigits(v)
    case None => Failure(NoNumber(key, v))
    case Some(run) => Success(DigitsValue(run))
  }

  /** The number `FirstNumber` reads, where there is one. */
  function FirstValue(v: string): nat {
    if GetDigit(v).Some? then DigitsValue(GetDigit(v).value) else 0
  }

  /** The number `FloorNumber` reads, where there is one. */
  function OrdinalValue(v: string): nat {
    if OrdinalDigits(v).Some? then DigitsValue(OrdinalDigits(v).value) else 0
  }

  /** The segments on which `rule` raises: it needs a number and `v` has none. */
  predicate Fails(rule: Rule, v: string) {
    match rule
    case ConstructedArea | UsableArea | Bathrooms | ConstructionYear | Emissions | Consumption =>
      NoDigit(v)
    case Rooms => !Contains(v, "Sin ") && NoDigit(v)
    case Floor =>
      && !Contains(v, "Entreplanta ") && !Contains(v, "Bajo")
      && forall i | 0 <= i < |v| :: !DigitBeforeMark(v, i)
    case _ => false
  }

  /** The segments on which the branch that runs raises. */
  predicate Crashes(key: string, v: string) {
    Fails(Classify(key, v), v)
  }

  /** The amenity flags: they start `False` and a branch can only set them to `True`. */
  datatype Amenity =
    | TerraceFlag | BalconyFlag | StorageRoomFlag | AirConditioningFlag | WardrobesFlag
    | SemiDetachedFlag | GreenAreasFlag | PoolFlag | NewDevelopmentFlag

  /** The amenity flags a branch sets to `True`; "Terraza y balcón" sets two. */
  function Raised(rule: Rule): set<Amenity> {
    match rule
    case TerraceAndBalcony => {TerraceFlag, BalconyFlag}
    case Terrace => {TerraceFlag}
    case Balcony => {BalconyFlag}
    case StorageRoom => {StorageRoomFlag}
    case AirConditioning => {AirConditioningFlag}
    case BuiltInWardrobes => {WardrobesFlag}
    case SemiDetachedHouse => {SemiDetachedFlag}
    case GreenAreas => {GreenAreasFlag}
    case Pool => {PoolFlag}
    case NewBuildingDevelopment => {NewDevelopmentFlag}
    case _ => {}
  }

  /** The text fields that a branch fills with the whole segment. */
  datatype TextField = StateText | HeatingText | MobilityText | GarageText | TenantText | ExtraText

  function TextOf(notes: Notes, f: TextField): Option<string> {
    match f
    case StateText => notes.state
    case HeatingText => notes.heating
    case MobilityText => notes.reducedMobility
    case GarageText => notes.garage
    case TenantText => notes.tenant
    case ExtraText => notes.extra
  }

  /** The only branch that writes each text field. */
  function Writer(f: TextField): Rule {
    match f
    case StateText => SecondHand
    case HeatingText => Heating
    case MobilityText => ReducedMobility
    case GarageText => Garage
    case TenantText => TenantStatus
    case ExtraText => Unmatched
  }

  /** The certificate is unset or an exempt / in-process status. */
  predicate CertificateShape(d: Details) {
    d.notes.certificate.None? ||
    Contains(d.notes.certificate.value, "Inmueble exento") || Contains(d.notes.certificate.value, "En trámite")
  }

  /** The branches that write figures read a number out of the segment (only these can
      raise), or set `inside` alone; every other branch leaves the figures as they are. */
  function Measure(f: Figures, rule: Rule, key: string, v: string): (r: Result<Figures, DetailsError>)
    ensures r.Failure? <==> Fails(rule, v)
    ensures r.Failure? ==> r.error == NoNumber(key, v)
  {
    match rule
    case JointAreas =>
      var numbers := AllDigitRuns(v);
      if |numbers| == 2 then
        Success(f.(sqmConstructed := Some(DigitsValue(numbers[0])), sqmUsable := Some(DigitsValue(numbers[1]))))
      else
        Success(f)
    case ConstructedArea =>
      var n :- FirstNumber(key, v);
      Success(f.(sqmConstructed := Some(n)))
    case UsableArea =>
      var n :- FirstNumber(key, v);
      Success(f.(sqmUsable := Some(n)))
    case Rooms =>
      var n :- if Contains(v, "Sin ") then Success(0) else FirstNumber(key, v);
      Success(f.(nRooms := Some(n)))
    case Bathrooms =>
      var n :- FirstNumber(key, v);
      Success(f.(bathrooms := Some(n)))
    case ConstructionYear =>
      var n :- FirstNumber(key, v);
      Success(f.(builtIn := Some(n)))
    case Floor =>
      var floor :-
        if Contains(v, "Entreplanta ") || Contains(v, "Bajo") then Success(0) else FloorNumber(key, v);
      var inside :=
        if Contains(v, "exterior") then Some(false)
        else if Contains(v, "interior") then Some(true)
        else f.inside;
      Success(f.(floor := Some(floor), inside := inside))
    case Interior => Success(f.(inside := Some(true)))
    case Exterior => Success(f.(inside := Some(false)))
    case Emissions =>
      var n :- FirstNumber(key, v);
      Success(f.(kwhSqmYearEmissions := Some(n)))
    case Consumption =>
      var n :- FirstNumber(key, v);
      Success(f.(kgCo2SqmYearConsumption := Some(n)))
    case _ => Success(f)
  }

  /** The descriptive branches store the segment, a cleaned copy of it or a fixed value in
      their field; the energy lines and every other branch leave the texts as they are. */
  function Note(notes: Notes, rule: Rule, v: string): Notes {
    match rule
    case SecondHand => notes.(state := Some(v))
    case Orientation => notes.(orientation := Some(RemoveAll(v, "Orientación ")))
    case Heating => notes.(heating := Some(v))
    case ReducedMobility => notes.(reducedMobility := Some(v))
    case Garage => notes.(garage := Some(v))
    case NoElevator => notes.(elevator := Some(false))
    case WithElevator => notes.(elevator := Some(true))
    case CertificateConsumption => notes.(certificate := None)
    case CertificateStatus => notes.(certificate := Some(v))
    case TenantStatus => notes.(tenant := Some(v))
    case Unmatched => notes.(extra := Some(v))
    case _ => notes
  }

  /** The body of branch `rule` on segment `v`: each group of fields is updated by the
      part of the branch that concerns it. */
  function Run(d: Details, rule: Rule, key: string, v: string): (r: Result<Details, DetailsError>)
    ensures r.Failure? <==> Fails(rule, v)
    ensures r.Failure? ==> r.error == NoNumber(key, v)
    ensures rule == Unmatched ==> r == Success(d.(notes := d.notes.(extra := Some(v))))
    ensures rule == EnergyNoise ==> r == Success(d)
  {
    var figures :- Measure(d.figures, rule, key, v);
    assert Raised(rule) == {} ==> d.amenities + Raised(rule) == d.amenities;
    Success(Details(figures, d.amenities + Raised(rule), Note(d.notes, rule, v)))
  }

  /** One pass of the loop body: run the branch that `v` selects. */
  function Apply(d: Details, key: string, v: string): (r: Result<Details, DetailsError>)
    ensures r.Failure? <==> Crashes(key, v)
    ensures r.Failure? ==> r.error == NoNumber(key, v)
    ensures Classify(key, v) == Unmatched ==> r == Success(d.(notes := d.notes.(extra := Some(v))))
    ensures Classify(key, v) == EnergyNoise ==> r == Success(d)
  {
    Run(d, Classify(key, v), key, v)
  }

  /** A branch only ever raises amenity flags, and only its own. */
  lemma RunRaises(d: Details, rule: Rule, key: string, v: string, a: Amenity)
    requires Run(d, rule, key, v).Success?
    ensures a in Run(d, rule, key, v).value.amenities <==> a in d.amenities || a in Raised(rule)
  {
  }

  /** A branch writes the whole segment into its own text field and leaves the others. */
  lemma RunWrites(d: Details, rule: Rule, key: string, v: string, f: TextField)
    requires Run(d, rule, key, v).Success?
    ensures TextOf(Run(d, rule, key, v).value.notes, f) == if rule == Writer(f) then Some(v) else TextOf(d.notes, f)
  {
  }

  /** Only the certificate branches touch the certificate: one clears it, the other stores
      the whole segment. */
  lemma RunCertificate(d: Details, rule: Rule, key: string, v: string)
    requires Run(d, rule, key, v).Success?
    ensures Run(d, rule, key, v).value.notes.certificate ==
            if rule == CertificateStatus then Some(v)
            else if rule == CertificateConsumption then None
            else d.notes.certificate
  {
  }

  /** The fields a branch fills with a value it reads off the segment or fixes itself:
      the figures, `elevator` and `orientation`. */
  datatype Field =
    | RoomsField | ConstructedField | UsableField | BathroomsField | BuiltInField
    | FloorField | InsideField | EmissionsField | ConsumptionField
    | ElevatorField | OrientationField

  /** The value of such a field: a number, a boolean or a text. */
  datatype Value = Count(n: nat) | Truth(b: bool) | Words(s: string)

  function CountOf(o: Option<nat>): Option<Value> {
    if o.Some? then Some(Count(o.value)) else None
  }

  function TruthOf(o: Option<bool>): Option<Value> {
    if o.Some? then Some(Truth(o.value)) else None
  }

  function WordsOf(o: Option<string>): Option<Value> {
    if o.Some? then Some(Words(o.value)) else None
  }

  function ValueOf(d: Details, f: Field): Option<Value> {
    match f
    case RoomsField => CountOf(d.figures.nRooms)
    case ConstructedField => CountOf(d.figures.sqmConstructed)
    case UsableField => CountOf(d.figures.sqmUsable)
    case BathroomsField => CountOf(d.figures.bathrooms)
    case BuiltInField => CountOf(d.figures.builtIn)
    case FloorField => CountOf(d.figures.floor)
    case InsideField => TruthOf(d.figures.inside)
    case EmissionsField => CountOf(d.figures.kwhSqmYearEmissions)
    case ConsumptionField => CountOf(d.figures.kgCo2SqmYearConsumption)
    case ElevatorField => TruthOf(d.notes.elevator)
    case OrientationField => WordsOf(d.notes.orientation)
  }

  /** The branches that store a value in `f` when they run on `v`. Both areas are also
      written by the joint-area line, but only when it holds exactly two numbers; `inside`
      is also written by the floor line, when it says "exterior" or "interior". */
  predicate Sets(rule: Rule, v: string, f: Field) {
    match f
    case RoomsField => rule == Rooms
    case ConstructedField => rule == ConstructedArea || (rule == JointAreas && |AllDigitRuns(v)| == 2)
    case UsableField => rule == UsableArea || (rule == JointAreas && |AllDigitRuns(v)| == 2)
    case BathroomsField => rule == Bathrooms
    case BuiltInField => rule == ConstructionYear
    case FloorField => rule == Floor
    case InsideField =>
      rule == Interior || rule == Exterior || (rule == Floor && (Contains(v, "exterior") || Contains(v, "interior")))
    case EmissionsField => rule == Emissions
    case ConsumptionField => rule == Consumption
    case ElevatorField => rule == NoElevator || rule == WithElevator
    case OrientationField => rule == Orientation
  }

  /** The value a branch that sets `f` stores there. On the floor line "exterior" is looked
      for before "interior". */
  function Stored(rule: Rule, v: string, f: Field): Value {
    match f
    case RoomsField => Count(if Contains(v, "Sin ") then 0 else FirstValue(v))
    case ConstructedField =>
      var runs := AllDigitRuns(v);
      Count(if rule == JointAreas && |runs| == 2 then DigitsValue(runs[0]) else FirstValue(v))
    case UsableField =>
      var runs := AllDigitRuns(v);
      Count(if rule == JointAreas && |runs| == 2 then DigitsValue(runs[1]) else FirstValue(v))
    case FloorField => Count(if Contains(v, "Entreplanta ") || Contains(v, "Bajo") then 0 else OrdinalValue(v))
    case InsideField => Truth(rule == Interior || (rule == Floor && !Contains(v, "exterior")))
    case ElevatorField => Truth(rule == WithElevator)
    case OrientationField => Words(RemoveAll(v, "Orientación "))
    case _ => Count(FirstValue(v))
  }

  /** A branch stores its value in the fields it sets and leaves every other field alone. */
  lemma RunSets(d: Details, rule: Rule, key: string, v: string, f: Field)
    requires Run(d, rule, key, v).Success?
    ensures ValueOf(Run(d, rule, key, v).value, f) == if Sets(rule, v, f) then Some(Stored(rule, v, f)) else ValueOf(d, f)
  {
    match f
    case ConstructedField | UsableField => RunSetsArea(d, rule, key, v, f);
    case FloorField => RunSetsFloor(d, rule, key, v, f);
    case InsideField => RunSetsInside(d, rule, key, v, f);
    case ElevatorField | OrientationField => RunSetsNote(d, rule, key, v, f);
    case _ => RunSetsNumber(d, rule, key, v, f);
  }

  lemma RunSetsNumber(d: Details, rule: Rule, key: string, v: string, f: Field)
    requires Run(d, rule, key, v).Success?
    requires f in {RoomsField, BathroomsField, BuiltInField, EmissionsField, ConsumptionField}
    ensures ValueOf(Run(d, rule, key, v).value, f) == if Sets(rule, v, f) then Some(Stored(rule, v, f)) else ValueOf(d, f)
  {
  }

  lemma RunSetsArea(d: Details, rule: Rule, key: string, v: string, f: Field)
    requires Run(d, rule, key, v).Success?
    requires f == ConstructedField || f == UsableField
    ensures ValueOf(Run(d, rule, key, v).value, f) == if Sets(rule, v, f) then Some(Stored(rule, v, f)) else ValueOf(d, f)
  {
  }

  lemma RunSetsFloor(d: Details, rule: Rule, key: string, v: string, f: Field)
    requires Run(d, rule, key, v).Success?
    requires f == FloorField
    ensures ValueOf(Run(d, rule, key, v).value, f) == if Sets(rule, v, f) then Some(Stored(rule, v, f)) else ValueOf(d, f)
  {
  }

  lemma RunSetsInside(d: Details, rule: Rule, key: string, v: string, f: Field)
    requires Run(d, rule, key, v).Success?
    requires f == InsideField
    ensures ValueOf(Run(d, rule, key, v).value, f) == if Sets(rule, v, f) then Some(Stored(rule, v, f)) else ValueOf(d, f)
  {
  }

  lemma RunSetsNote(d: Details, rule: Rule, key: string, v: string, f: Field)
    requires Run(d, rule, key, v).Success?
    requires f == ElevatorField || f == OrientationField
    ensures ValueOf(Run(d, rule, key, v).value, f) == if Sets(rule, v, f) then Some(Stored(rule, v, f)) else ValueOf(d, f)
  {
  }

  /** The branches that read one number store the first maximal run of digits of the
      segment, read as a number. */
  lemma StoredFirstRun(rule: Rule, v: string, f: Field)
    requires Sets(rule, v, f) && !Fails(rule, v) && rule != JointAreas
    requires f in {ConstructedField, UsableField, BathroomsField, BuiltInField, EmissionsField, ConsumptionField}
    ensures exists start, run :: IsFirstDigitRun(v, start, run) && Stored(rule, v, f) == Count(DigitsValue(run))
  {
    var run := GetDigit(v).value;
    var start :| IsFirstDigitRun(v, start, run);
  }

  /** The floor line stores 0 for an entresol or a ground floor, and otherwise the first
      maximal run of digits followed by the ordinal mark. */
  lemma StoredFloor(v: string)
    requires !Fails(Floor, v)
    ensures if Contains(v, "Entreplanta ") || Contains(v, "Bajo") then Stored(Floor, v, FloorField) == Count(0)
            else exists start, run :: IsFirstOrdinalRun(v, start, run) && Stored(Floor, v, FloorField) == Count(DigitsValue(run))
  {
    if !(Contains(v, "Entreplanta ") || Contains(v, "Bajo")) {
      var run := OrdinalDigits(v).value;
      var start :| IsFirstOrdinalRun(v, start, run);
    }
  }

  /** "No indicado" and the "Consumo:"/"Emisiones:" lines are swallowed before the certificate
      branch, so the certificate only ever holds an exempt or in-process status. */
  lemma ApplyKeepsCertificateShape(d: Details, key: string, v: string)
    requires CertificateShape(d) && Apply(d, key, v).Success?
    ensures CertificateShape(Apply(d, key, v).value)
  {
    var rule := Classify(key, v);
    RunCertificate(d, rule, key, v);
    if rule == CertificateStatus {
      OrderAt(EnergyNoise);
      StatusIsExemptOrPending(key, v);
    }
  }

  /** A status segment that is not swallowed by the energy line is exempt or in process. */
  lemma StatusIsExemptOrPending(key: string, v: string)
    requires Guard(CertificateStatus, key, v)
    requires !Guard(RuleAt(Rank(EnergyNoise)), key, v)
    ensures Contains(v, "Inmueble exento") || Contains(v, "En trámite")
  {
    OrderAt(EnergyNoise);
  }

  /** The decoded details: the section names with their lists of segments, in the order of
      the mapping's `items()`. */
  type RawDetails = seq<(string, seq<string>)>

  /** One segment with the name of the section it came from. */
  type Segment = (string, string)

  /** The segments of `raw`, section by section, in the order the two loops visit them. */
  function Segments(raw: RawDetails): (segs: seq<Segment>)
    decreases |raw|
  {
    if |raw| == 0 then [] else Section(raw[0].0, raw[0].1) + Segments(raw[1..])
  }

  function Section(key: string, values: seq<string>): (segs: seq<Segment>)
    ensures |segs| == |values|
    ensures forall i | 0 <= i < |segs| :: segs[i] == (key, values[i])
  {
    seq(|values|, i requires 0 <= i < |values| => (key, values[i]))
  }

  /** Every segment of a section is visited, under that section's name, and nothing else is. */
  lemma {:induction false} SegmentsComplete(raw: RawDetails, key: string, v: string)
    ensures (key, v) in Segments(raw) <==> exists k | 0 <= k < |raw| :: raw[k].0 == key && v in raw[k].1
    decreases |raw|
  {
    if |raw| > 0 {
      SegmentsComplete(raw[1..], key, v);
      var head := Section(raw[0].0, raw[0].1);
      assert (key, v) in head <==> raw[0].0 == key && v in raw[0].1 by {
        if (key, v) in head {
          var i :| 0 <= i < |head| && head[i] == (key, v);
        }
        if raw[0].0 == key && v in raw[0].1 {
          var i :| 0 <= i < |raw[0].1| && raw[0].1[i] == v;
          assert head[i] == (key, v);
        }
      }
      if exists k | 0 <= k < |raw[1..]| :: raw[1..][k].0 == key && v in raw[1..][k].1 {
        var k :| 0 <= k < |raw[1..]| && raw[1..][k].0 == key && v in raw[1..][k].1;
        assert raw[k + 1] == raw[1..][k];
      }
      if exists k | 0 < k < |raw| :: raw[k].0 == key && v in raw[k].1 {
        var k :| 0 < k < |raw| && raw[k].0 == key && v in raw[k].1;
        assert raw[1..][k - 1] == raw[k];
      }
    }
  }

  /** The loop over all segments, stopping at the first segment whose branch raises. */
  function ApplyAll(d: Details, segs: seq<Segment>): Result<Details, DetailsError>
    decreases |segs|
  {
    if |segs| == 0 then
      Success(d)
    else
      var next :- Apply(d, segs[0].0, segs[0].1);
      ApplyAll(next, segs[1..])
  }

  /** The loop raises exactly when some segment's branch raises, and the error names such a
      segment. */
  lemma {:induction false} ApplyAllFails(d: Details, segs: seq<Segment>)
    ensures ApplyAll(d, segs).Failure? <==> exists i | 0 <= i < |segs| :: Crashes(segs[i].0, segs[i].1)
    ensures ApplyAll(d, segs).Failure? ==>
              exists i | 0 <= i < |segs| :: ApplyAll(d, segs).error == NoNumber(segs[i].0, segs[i].1)
    decreases |segs|
  {
    if |segs| > 0 {
      var first := Apply(d, segs[0].0, segs[0].1);
      if first.Success? {
        ApplyAllFails(first.value, segs[1..]);
        assert forall i | 1 <= i < |segs| :: segs[i] == segs[1..][i - 1];
      }
    }
  }

  /** The value of the last segment whose branch is `rule`, if any. */
  function LastOf(segs: seq<Segment>, rule: Rule): (r: Option<string>)
    ensures r.None? <==> forall i | 0 <= i < |segs| :: Classify(segs[i].0, segs[i].1) != rule
    ensures r.Some? ==>
              exists i | 0 <= i < |segs| ::
                && Classify(segs[i].0, segs[i].1) == rule && segs[i].1 == r.value
                && forall j | i < j < |segs| :: Classify(segs[j].0, segs[j].1) != rule
    decreases |segs|
  {
    if |segs| == 0 then
      None
    else
      var later := LastOf(segs[1..], rule);
      assert forall i | 1 <= i < |segs| :: segs[i] == segs[1..][i - 1];
      if later.Some? then
        later
      else if Classify(segs[0].0, segs[0].1) == rule then
        Some(segs[0].1)
      else
        None
  }

  /** An amenity flag ends up set exactly when it was set before or some segment raises it. */
  lemma {:induction false} ApplyAllRaises(d: Details, segs: seq<Segment>, a: Amenity)
    requires ApplyAll(d, segs).Success?
    ensures a in ApplyAll(d, segs).value.amenities <==>
            a in d.amenities || exists i | 0 <= i < |segs| :: a in Raised(Classify(segs[i].0, segs[i].1))
    decreases |segs|
  {
    if |segs| > 0 {
      var next := Apply(d, segs[0].0, segs[0].1).value;
      RunRaises(d, Classify(segs[0].0, segs[0].1), segs[0].0, segs[0].1, a);
      ApplyAllRaises(next, segs[1..], a);
      RaisedSomewhere(segs, a);
    }
  }

  lemma RaisedSomewhere(segs: seq<Segment>, a: Amenity)
    requires |segs| > 0
    ensures (exists i | 0 <= i < |segs| :: a in Raised(Classify(segs[i].0, segs[i].1))) <==>
            a in Raised(Classify(segs[0].0, segs[0].1)) ||
            exists i | 0 <= i < |segs[1..]| :: a in Raised(Classify(segs[1..][i].0, segs[1..][i].1))
  {
    assert forall i | 1 <= i < |segs| :: segs[i] == segs[1..][i - 1];
  }

  /** A text field ends up holding the last segment its branch saw, or what it held before. */
  lemma {:induction false} ApplyAllWrites(d: Details, segs: seq<Segment>, f: TextField)
    requires ApplyAll(d, segs).Success?
    ensures TextOf(ApplyAll(d, segs).value.notes, f) == Or(LastOf(segs, Writer(f)), TextOf(d.notes, f))
    decreases |segs|
  {
    if |segs| > 0 {
      var next := Apply(d, segs[0].0, segs[0].1).value;
      RunWrites(d, Classify(segs[0].0, segs[0].1), segs[0].0, segs[0].1, f);
      ApplyAllWrites(next, segs[1..], f);
    }
  }

  /** The value stored in `f` by the last segment whose branch sets it, if any. */
  function LastStored(segs: seq<Segment>, f: Field): (r: Option<Value>)
    ensures r.None? <==> forall i | 0 <= i < |segs| :: !Sets(Classify(segs[i].0, segs[i].1), segs[i].1, f)
    ensures r.Some? ==>
              exists i | 0 <= i < |segs| ::
                && Sets(Classify(segs[i].0, segs[i].1), segs[i].1, f)
                && r.value == Stored(Classify(segs[i].0, segs[i].1), segs[i].1, f)
                && forall j | i < j < |segs| :: !Sets(Classify(segs[j].0, segs[j].1), segs[j].1, f)
    decreases |segs|
  {
    if |segs| == 0 then
      None
    else
      var later := LastStored(segs[1..], f);
      assert forall i | 1 <= i < |segs| :: segs[i] == segs[1..][i - 1];
      var rule := Classify(segs[0].0, segs[0].1);
      if later.Some? then
        later
      else if Sets(rule, segs[0].1, f) then
        Some(Stored(rule, segs[0].1, f))
      else
        None
  }

  /** The last segment that sets a field wins: each field ends up holding what the last
      branch that sets it stored, or its earlier value. */
  lemma {:induction false} ApplyAllSets(d: Details, segs: seq<Segment>, f: Field)
    requires ApplyAll(d, segs).Success?
    ensures ValueOf(ApplyAll(d, segs).value, f) == Or(LastStored(segs, f), ValueOf(d, f))
    decreases |segs|
  {
    if |segs| > 0 {
      var next := Apply(d, segs[0].0, segs[0].1).value;
      RunSets(d, Classify(segs[0].0, segs[0].1), segs[0].0, segs[0].1, f);
      ApplyAllSets(next, segs[1..], f);
    }
  }

  /** The certificate keeps its shape through the whole loop. */
  lemma {:induction false} ApplyAllKeepsCertificateShape(d: Details, segs: seq<Segment>)
    requires CertificateShape(d) && ApplyAll(d, segs).Success?
    ensures CertificateShape(ApplyAll(d, segs).value)
    decreases |segs|
  {
    if |segs| > 0 {
      ApplyKeepsCertificateShape(d, segs[0].0, segs[0].1);
      ApplyAllKeepsCertificateShape(Apply(d, segs[0].0, segs[0].1).value, segs[1..]);
    }
  }

  /** `Details.from_raw_details`: start from an empty record and run every segment through the
      chain; a segment whose branch finds no number makes the whole call fail. */
  function FromRawDetails(raw: RawDetails): Result<Details, DetailsError> {
    ApplyAll(NoDetails, Segments(raw))
  }

  /** The conversion raises exactly when some segment's branch finds no number, and the
      error names such a segment. */
  lemma FromRawDetailsFails(raw: RawDetails)
    ensures FromRawDetails(raw).Failure? <==> exists s | s in Segments(raw) :: Crashes(s.0, s.1)
    ensures FromRawDetails(raw).Failure? ==> exists s | s in Segments(raw) :: FromRawDetails(raw).error == NoNumber(s.0, s.1)
  {
    ApplyAllFails(NoDetails, Segments(raw));
  }

  /** An amenity is `True` exactly when some segment's branch raises it. */
  lemma FromRawDetailsFlags(raw: RawDetails, a: Amenity)
    requires FromRawDetails(raw).Success?
    ensures a in FromRawDetails(raw).value.amenities <==> exists s | s in Segments(raw) :: a in Raised(Classify(s.0, s.1))
  {
    var segs := Segments(raw);
    ApplyAllRaises(NoDetails, segs, a);
    if exists s | s in segs :: a in Raised(Classify(s.0, s.1)) {
      var s :| s in segs && a in Raised(Classify(s.0, s.1));
      var i :| 0 <= i < |segs| && segs[i] == s;
    }
  }

  /** Each text field holds the last segment its branch saw, and is `None` when there was
      none; in particular `extra` is the last segment no guard recognised. */
  lemma FromRawDetailsText(raw: RawDetails, f: TextField)
    requires FromRawDetails(raw).Success?
    ensures TextOf(FromRawDetails(raw).value.notes, f) == LastOf(Segments(raw), Writer(f))
  {
    ApplyAllWrites(NoDetails, Segments(raw), f);
  }

  /** Each figure, `elevator` and `orientation` holds what the last segment whose branch
      sets it stored, and is `None` when there was none. */
  lemma FromRawDetailsValues(raw: RawDetails, f: Field)
    requires FromRawDetails(raw).Success?
    ensures ValueOf(FromRawDetails(raw).value, f) == LastStored(Segments(raw), f)
  {
    ApplyAllSets(NoDetails, Segments(raw), f);
  }

  /** The certificate is never "No indicado" nor an energy line: it is unset, or an exempt or
      in-process status. */
  lemma FromRawDetailsCertificate(raw: RawDetails)
    requires FromRawDetails(raw).Success?
    ensures CertificateShape(FromRawDetails(raw).value)
  {
    ApplyAllKeepsCertificateShape(NoDetails, Segments(raw));
  }

  /** A rooms segment with "Sin " means no rooms; otherwise the count is its first number. */
  lemma RoomsCount(d: Details, key: string, v: string)
    requires Run(d, Rooms, key, v).Success?
    ensures var rooms := Run(d, Rooms, key, v).value.figures.nRooms;
            if Contains(v, "Sin ") then rooms == Some(0)
            else exists start, run :: IsFirstDigitRun(v, start, run) && rooms == Some(DigitsValue(run))
  {
    if !Contains(v, "Sin ") {
      var run := GetDigit(v).value;
      var start :| IsFirstDigitRun(v, start, run);
    }
  }

  /** The line with both areas never raises. It sets them only when it holds exactly two
      numbers, which are then all its digits: the first is the constructed area and the
      second the usable one. Otherwise it changes nothing. */
  lemma JointAreasBoth(d: Details, key: string, v: string)
    ensures Run(d, JointAreas, key, v).Success?
    ensures var f := Run(d, JointAreas, key, v).value.figures;
            var runs := AllDigitRuns(v);
            && (|runs| == 2 ==>
                  && f.sqmConstructed == Some(DigitsValue(runs[0]))
                  && f.sqmUsable == Some(DigitsValue(runs[1]))
                  && GetDigit(v) == Some(runs[0])
                  && runs[0] + runs[1] == KeepDigits(v))
            && (|runs| != 2 ==> f == d.figures)
  {
    var runs := AllDigitRuns(v);
    AllDigitRunsKeepDigits(v);
    if |runs| == 2 {
      assert Concat(runs) == runs[0] + Concat(runs[1..]);
      assert Concat(runs[1..]) == runs[1] + Concat(runs[2..]);
      assert runs[2..] == [];
    }
  }

  /** "Terraza y balcón" is checked before "Terraza", which it also contains, so a segment
      that reaches it sets both flags; the lower-case "balcón" in it would not pass the later
      test for "Balcón" on its own. */
  lemma TerraceAndBalconySetsBoth(d: Details, key: string, v: string)
    requires Contains(v, "Terraza y balcón")
    requires forall j | 0 <= j < Rank(TerraceAndBalcony) :: !Guard(RuleAt(j), key, v)
    ensures Apply(d, key, v).Success?
    ensures TerraceFlag in Apply(d, key, v).value.amenities && BalconyFlag in Apply(d, key, v).value.amenities
  {
    ClassifyUnique(key, v, TerraceAndBalcony);
    RunRaises(d, TerraceAndBalcony, key, v, TerraceFlag);
    RunRaises(d, TerraceAndBalcony, key, v, BalconyFlag);
  }

  // Worked lines. Each earlier guard is shown to fail through a character of its keyword
  // that the line lacks; the line's own branch then runs.

  const BathroomsLine := "2 baños"

  /** "2 baños" sets two bathrooms. */
  lemma BathroomsLineExample(d: Details, key: string)
    ensures Apply(d, key, BathroomsLine).Success?
    ensures Apply(d, key, BathroomsLine).value.figures.bathrooms == Some(2)
  {
    var v := BathroomsLine;
    assert OccursAt(v, "baño", 2);
    assert RuleAt(0) == JointAreas && RuleAt(1) == ConstructedArea && RuleAt(2) == UsableArea && RuleAt(3) == Rooms;
    ClassifyUnique(key, v, Bathrooms);
    assert LeadingDigits(v) == "2";
    RunSets(d, Bathrooms, key, v, BathroomsField);
  }

  /** The first eight guards fail on a line whose alphabet lacks 'm', 'h', 'b', 'T' and 'B'. */
  lemma FirstQuarterFails(key: string, v: string, alphabet: set<char>)
    requires forall i | 0 <= i < |v| :: v[i] in alphabet
    requires 'm' !in alphabet && 'h' !in alphabet && 'b' !in alphabet && 'T' !in alphabet && 'B' !in alphabet
    ensures forall j | 0 <= j < 8 :: !Guard(RuleAt(j), key, v)
  {
    AbsentChar(v, alphabet, " m² construidos, ", 1);
    AbsentChar(v, alphabet, "m² construidos", 0);
    AbsentChar(v, alphabet, "m² útiles", 0);
    AbsentChar(v, alphabet, "habitación", 0);
    AbsentChar(v, alphabet, "habitaciones", 0);
    AbsentChar(v, alphabet, "baño", 0);
    AbsentChar(v, alphabet, "Terraza y balcón", 0);
    AbsentChar(v, alphabet, "Terraza", 0);
    AbsentChar(v, alphabet, "Balcón", 0);
  }

  const NoElevatorLine := "Sin ascensor"
  const WithElevatorLine := "Con ascensor"

  /** The guards from "Segunda mano" to "garaje" fail on the two elevator lines. */
  lemma ElevatorLinesPassMiddle(key: string, v: string)
    requires v == NoElevatorLine || v == WithElevatorLine
    ensures forall j | 8 <= j < 14 :: !Guard(RuleAt(j), key, v)
  {
    var alphabet := {'S', 'C', 'i', 'n', ' ', 'a', 's', 'c', 'e', 'o', 'r'};
    var lower := {'s', 'c', 'i', 'n', ' ', 'a', 'e', 'o', 'r'};
    assert forall i | 0 <= i < |v| :: v[i] in alphabet;
    LowerInto(v, alphabet, lower);
    AbsentChar(v, alphabet, "Segunda mano", 2);
    AbsentChar(v, alphabet, "Orientación", 0);
    AbsentChar(v, alphabet, "Construido en ", 6);
    AbsentChar(Lower(v), lower, "calefacción", 2);
    AbsentChar(v, alphabet, "movilidad reducida", 0);
    AbsentChar(v, alphabet, "garaje", 0);
    assert forall j | 8 <= j < 14 :: RuleAt(j) == RuleAt1(j - 8);
  }

  /** "Sin ascensor" sets `elevator` to `False`. */
  lemma NoElevatorLineExample(d: Details, key: string)
    ensures Apply(d, key, NoElevatorLine).Success?
    ensures Apply(d, key, NoElevatorLine).value.notes.elevator == Some(false)
  {
    var v := NoElevatorLine;
    FirstQuarterFails(key, v, {'S', 'i', 'n', ' ', 'a', 's', 'c', 'e', 'o', 'r'});
    ElevatorLinesPassMiddle(key, v);
    assert OccursAt(v, "Sin ascensor", 0);
    ClassifyUnique(key, v, NoElevator);
    RunSets(d, NoElevator, key, v, ElevatorField);
  }

  /** "Con ascensor" sets `elevator` to `True`. */
  lemma WithElevatorLineExample(d: Details, key: string)
    ensures Apply(d, key, WithElevatorLine).Success?
    ensures Apply(d, key, WithElevatorLine).value.notes.elevator == Some(true)
  {
    var v := WithElevatorLine;
    FirstQuarterFails(key, v, {'C', 'o', 'n', ' ', 'a', 's', 'c', 'e', 'r'});
    ElevatorLinesPassMiddle(key, v);
    AbsentChar(v, {'C', 'o', 'n', ' ', 'a', 's', 'c', 'e', 'r'}, "Sin ascensor", 0);
    assert RuleAt(14) == NoElevator;
    assert OccursAt(v, "Con ascensor", 0);
    ClassifyUnique(key, v, WithElevator);
    RunSets(d, WithElevator, key, v, ElevatorField);
  }

  const OrientationLine := "Orientación sur"

  /** The orientation line passes its own guard and no guard tried before it. */
  lemma OrientationLineGuards(key: string)
    ensures Guard(Orientation, key, OrientationLine)
    ensures forall j | 0 <= j < Rank(Orientation) :: !Guard(RuleAt(j), key, OrientationLine)
  {
    var alphabet := {'O', 'r', 'i', 'e', 'n', 't', 'a', 'c', 'ó', ' ', 's', 'u'};
    FirstQuarterFails(key, OrientationLine, alphabet);
    AbsentChar(OrientationLine, alphabet, "Segunda mano", 0);
    assert RuleAt(8) == SecondHand;
    assert OccursAt(OrientationLine, "Orientación", 0);
  }

  /** Removing "Orientación " from the orientation line leaves "sur". */
  lemma OrientationLineRest()
    ensures RemoveAll(OrientationLine, "Orientación ") == "sur"
  {
    assert StartsWith(OrientationLine, "Orientación ") && OrientationLine[12..] == "sur";
  }

  /** A segment classified as an orientation line stores what is left of it once
      "Orientación " is removed. */
  lemma ApplyOrientation(d: Details, key: string, v: string, w: string)
    requires Classify(key, v) == Orientation && RemoveAll(v, "Orientación ") == w
    ensures Apply(d, key, v).Success?
    ensures Apply(d, key, v).value.notes.orientation == Some(w)
  {
    RunSets(d, Orientation, key, v, OrientationField);
  }

  /** "Orientación sur" stores the orientation "sur". */
  lemma OrientationLineExample(d: Details, key: string)
    ensures Apply(d, key, OrientationLine).Success?
    ensures Apply(d, key, OrientationLine).value.notes.orientation == Some("sur")
  {
    OrientationLineGuards(key);
    ClassifyUnique(key, OrientationLine, Orientation);
    OrientationLineRest();
    ApplyOrientation(d, key, OrientationLine, "sur");
  }

  const FloorLine := "planta 3ª exterior"

  /** The guards from "Segunda mano" to "Con ascensor" fail on a segment without any of the
      letters 'S', 'O', 'C', 'm' and 'g', whose lower-cased form has no 'c'. */
  lemma SecondQuarterFails(key: string, v: string, alphabet: set<char>, lowered: set<char>)
    requires forall i | 0 <= i < |v| :: v[i] in alphabet
    requires forall c | c in alphabet :: LowerChar(c) in lowered
    requires 'S' !in alphabet && 'O' !in alphabet && 'C' !in alphabet && 'm' !in alphabet && 'g' !in alphabet
    requires 'c' !in lowered
    ensures forall j | 8 <= j < 16 :: !Guard(RuleAt(j), key, v)
  {
    LowerInto(v, alphabet, lowered);
    AbsentChar(v, alphabet, "Segunda mano", 0);
    AbsentChar(v, alphabet, "Orientación", 0);
    AbsentChar(v, alphabet, "Construido en ", 0);
    AbsentChar(Lower(v), lowered, "calefacción", 0);
    AbsentChar(v, alphabet, "movilidad reducida", 0);
    AbsentChar(v, alphabet, "garaje", 0);
    AbsentChar(v, alphabet, "Sin ascensor", 0);
    AbsentChar(v, alphabet, "Con ascensor", 0);
    assert forall j | 8 <= j < 16 :: RuleAt(j) == RuleAt1(j - 8);
  }

  /** A segment on which the first two quarters of guards fail reaches the floor guard. */
  lemma BeforeFloorFails(key: string, v: string)
    requires forall j | 0 <= j < 8 :: !Guard(RuleAt(j), key, v)
    requires forall j | 8 <= j < 16 :: !Guard(RuleAt(j), key, v)
    ensures forall j | 0 <= j < Rank(Floor) :: !Guard(RuleAt(j), key, v)
  {
  }

  /** The letters of the floor line. */
  const FloorAlphabet: set<char> := {'p', 'l', 'a', 'n', 't', ' ', '3', 'ª', 'e', 'x', 'r', 'i', 'o'}

  lemma FloorLineLetters()
    ensures forall i | 0 <= i < |FloorLine| :: FloorLine[i] in FloorAlphabet
    ensures forall c | c in FloorAlphabet :: LowerChar(c) == c
  {
  }

  /** The floor line passes the floor guard. */
  lemma FloorLineGuard(key: string)
    ensures Guard(Floor, key, FloorLine)
  {
    FloorLineLetters();
    LowerKeeps(FloorLine, FloorAlphabet);
    assert OccursAt(Lower(FloorLine), "planta ", 0);
  }

  /** The floor line passes the floor guard and no guard tried before it. */
  lemma FloorLineGuards(key: string)
    ensures Guard(Floor, key, FloorLine)
    ensures forall j | 0 <= j < Rank(Floor) :: !Guard(RuleAt(j), key, FloorLine)
  {
    FloorLineGuard(key);
    FloorLineLetters();
    FirstQuarterFails(key, FloorLine, FloorAlphabet);
    SecondQuarterFails(key, FloorLine, FloorAlphabet, FloorAlphabet);
    BeforeFloorFails(key, FloorLine);
  }

  /** The floor line holds neither "Entreplanta " nor "Bajo", and says "exterior". */
  lemma FloorLineWords()
    ensures !Contains(FloorLine, "Entreplanta ") && !Contains(FloorLine, "Bajo")
    ensures Contains(FloorLine, "exterior")
  {
    FloorLineLetters();
    assert OccursAt(FloorLine, "exterior", 10);
    AbsentChar(FloorLine, FloorAlphabet, "Entreplanta ", 0);
    AbsentChar(FloorLine, FloorAlphabet, "Bajo", 0);
  }

  /** The floor line reads floor 3 off "3ª". */
  lemma FloorLineOrdinal()
    ensures DigitBeforeMark(FloorLine, 7)
    ensures OrdinalDigits(FloorLine) == Some("3")
  {
    assert LeadingDigits(FloorLine[7..]) == "3";
  }

  lemma ThreeValue()
    ensures DigitsValue("3") == 3
  {
    assert DigitsValue("3") == 10 * DigitsValue("") + 3;
  }

  /** The floor branch does not raise on a segment with a digit before the ordinal mark. */
  lemma FloorMarked(v: string, i: int)
    requires DigitBeforeMark(v, i)
    ensures !Fails(Floor, v)
  {
  }

  /** Without "Entreplanta " or "Bajo", the floor branch stores the number of the run it
      reads before the ordinal mark. */
  lemma FloorStoresOrdinal(v: string, run: string, n: nat)
    requires OrdinalDigits(v) == Some(run) && DigitsValue(run) == n
    requires !Contains(v, "Entreplanta ") && !Contains(v, "Bajo")
    ensures Stored(Floor, v, FloorField) == Count(n)
  {
    assert OrdinalValue(v) == n;
  }

  /** A floor line that says "exterior" sets `inside` to `False`. */
  lemma FloorOutside(v: string)
    requires Contains(v, "exterior")
    ensures Sets(Floor, v, InsideField) && Stored(Floor, v, InsideField) == Truth(false)
  {
  }

  /** On the floor line the floor branch does not raise, stores floor 3, and sets `inside`
      to `False`. */
  lemma FloorLineStores()
    ensures !Fails(Floor, FloorLine)
    ensures Stored(Floor, FloorLine, FloorField) == Count(3)
    ensures Sets(Floor, FloorLine, InsideField) && Stored(Floor, FloorLine, InsideField) == Truth(false)
  {
    FloorLineWords();
    FloorLineOrdinal();
    ThreeValue();
    FloorMarked(FloorLine, 7);
    FloorStoresOrdinal(FloorLine, "3", 3);
    FloorOutside(FloorLine);
  }

  /** A segment classified as a floor line, on which the floor branch does not raise and
      which says "exterior", sets the floor it reads and `inside` to `False`. */
  lemma ApplyOutsideFloor(d: Details, key: string, v: string, n: nat)
    requires Classify(key, v) == Floor && !Fails(Floor, v)
    requires Stored(Floor, v, FloorField) == Count(n)
    requires Sets(Floor, v, InsideField) && Stored(Floor, v, InsideField) == Truth(false)
    ensures Apply(d, key, v).Success?
    ensures Apply(d, key, v).value.figures.floor == Some(n)
    ensures Apply(d, key, v).value.figures.inside == Some(false)
  {
    RunSets(d, Floor, key, v, FloorField);
    RunSets(d, Floor, key, v, InsideField);
  }

  /** "planta 3ª exterior" sets floor 3 and `inside` to `False`. */
  lemma FloorLineExample(d: Details, key: string)
    ensures Apply(d, key, FloorLine).Success?
    ensures Apply(d, key, FloorLine).value.figures.floor == Some(3)
    ensures Apply(d, key, FloorLine).value.figures.inside == Some(false)
  {
    FloorLineGuards(key);
    ClassifyUnique(key, FloorLine, Floor);
    FloorLineStores();
    ApplyOutsideFloor(d, key, FloorLine, 3);
  }
}
