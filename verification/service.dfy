/** `get_address_counter`: for each of the seven address fields, how many apartments share
    each value of that field. */
module Service {
  import opened Wrappers
  import opened Addresses
  import opened Apartments

  /** The address fields, in the order `keys_and_fvalues` lists them. */
  datatype AddressField = Street | Number | Neighborhood | District | City | Region | AutonomousCommunity

  /** The key each field is counted under. */
  function Name(field: AddressField): string {
    match field
    case Street => "street"
    case Number => "number"
    case Neighborhood => "neighborhood"
    case District => "district"
    case City => "city"
    case Region => "region"
    case AutonomousCommunity => "autonomous_community"
  }

  /** The accessor each field is read with. */
  function ValueOf(address: Address, field: AddressField): Option<string> {
    match field
    case Street => address.street
    case Number => address.number
    case Neighborhood => address.neighborhood
    case District => address.district
    case City => address.city
    case Region => address.region
    case AutonomousCommunity => address.autonomousCommunity
  }

  /** Different fields are counted under different keys. */
  lemma NamesDistinct()
    ensures forall f, g :: Name(f) == Name(g) ==> f == g
  {
    forall f, g | Name(f) == Name(g)
      ensures f == g
    {
      assert |Name(f)| == |Name(g)| && Name(f)[0] == Name(g)[0];
      if Name(f)[0] == 'n' {
        assert Name(f)[1] == Name(g)[1];
      }
    }
  }

  /** The tally of one field: a value and how many apartments have it. */
  type Tally = map<Option<string>, int>

  /** The whole result: one tally per field name. */
  type Counter = map<string, Tally>

  /** `tally.get(value, 0)` */
  function Get(tally: Tally, value: Option<string>): int {
    if value in tally then tally[value] else 0
  }

  /** `tally[value] = tally.get(value, 0) + 1`: one more for `value`, nothing else changes. */
  function Bump(tally: Tally, value: Option<string>): (r: Tally)
    ensures r.Keys == tally.Keys + {value}
    ensures forall other :: Get(r, other) == Get(tally, other) + (if other == value then 1 else 0)
  {
    tally[value := Get(tally, value) + 1]
  }

  /** The tally kept under `key`, empty when there is none. */
  function TallyOf(count: Counter, key: string): Tally {
    if key in count then count[key] else map[]
  }

  /** `if not count.get(key, False): count[key] = {}`: an absent or empty tally starts afresh. */
  function Current(count: Counter, key: string): Tally {
    if key in count && |count[key]| > 0 then count[key] else map[]
  }

  /** Resetting only ever replaces an empty tally by an empty tally, so the counts carry on
      from the last apartment. */
  lemma CurrentKeepsTally(count: Counter, key: string)
    ensures Current(count, key) == TallyOf(count, key)
  {
  }

  /** One pass of the inner loop: count the value of `field` in `address`. */
  function Put(count: Counter, address: Address, field: AddressField): Counter {
    count[Name(field) := Bump(Current(count, Name(field)), ValueOf(address, field))]
  }

  /** The fields in the order `keys_and_fvalues` lists them. */
  function Fields(): seq<AddressField> {
    [Street, Number, Neighborhood, District, City, Region, AutonomousCommunity]
  }

  lemma FieldsComplete(f: AddressField)
    ensures f in Fields()
    ensures forall i, j | 0 <= i < j < |Fields()| :: Fields()[i] != Fields()[j]
  {
  }

  /** The inner loop: count every field of `address`, in the order of `fields`. */
  function PutAll(count: Counter, address: Address, fields: seq<AddressField>): Counter
    decreases |fields|
  {
    if |fields| == 0 then count else PutAll(Put(count, address, fields[0]), address, fields[1..])
  }

  /** One pass of the inner loop touches its own field's tally and no other key. */
  lemma PutTally(count: Counter, address: Address, field: AddressField, key: string)
    ensures key in Put(count, address, field) <==> key in count || key == Name(field)
    ensures TallyOf(Put(count, address, field), key) ==
            if key == Name(field) then Bump(TallyOf(count, key), ValueOf(address, field)) else TallyOf(count, key)
  {
    CurrentKeepsTally(count, Name(field));
  }

  /** The inner loop adds a key for each listed field and drops none. */
  lemma {:induction false} PutAllKeys(count: Counter, address: Address, fields: seq<AddressField>, key: string)
    ensures key in PutAll(count, address, fields) <==> key in count || exists f | f in fields :: Name(f) == key
    decreases |fields|
  {
    if |fields| > 0 {
      PutTally(count, address, fields[0], key);
      PutAllKeys(Put(count, address, fields[0]), address, fields[1..], key);
      assert forall f | f in fields :: f == fields[0] || f in fields[1..];
    }
  }

  /** Each listed field's tally gains its value once; the other fields' tallies are kept. */
  lemma {:induction false} PutAllTallies(count: Counter, address: Address, fields: seq<AddressField>, f: AddressField)
    requires forall i, j | 0 <= i < j < |fields| :: fields[i] != fields[j]
    ensures TallyOf(PutAll(count, address, fields), Name(f)) ==
            if f in fields then Bump(TallyOf(count, Name(f)), ValueOf(address, f)) else TallyOf(count, Name(f))
    decreases |fields|
  {
    if |fields| > 0 {
      NamesDistinct();
      PutTally(count, address, fields[0], Name(f));
      PutAllTallies(Put(count, address, fields[0]), address, fields[1..], f);
      assert f in fields <==> f == fields[0] || f in fields[1..];
      if f == fields[0] {
        assert f !in fields[1..];
      }
    }
  }

  /** Counting an apartment without an address reads a field of `None` and raises. */
  datatype CounterError = MissingAddress(position: nat)

  /** The outer loop over `apartments`, counting `fields` of each, written over the prefix it
      has seen. */
  function CountAll(apartments: seq<Apartment>, fields: seq<AddressField>): Result<Counter, CounterError>
    decreases |apartments|
  {
    if |apartments| == 0 then
      Success(map[])
    else
      var n := |apartments| - 1;
      var count :- CountAll(apartments[..n], fields);
      match apartments[n].address
      case None => Failure(MissingAddress(n))
      case Some(address) => Success(PutAll(count, address, fields))
  }

  /** `get_address_counter(apartments)` */
  function AddressCounter(apartments: seq<Apartment>): Result<Counter, CounterError> {
    CountAll(apartments, Fields())
  }

  /** The loop raises exactly when some apartment has no address; an empty list gives an
      empty counter. */
  lemma {:induction false} CountAllFails(apartments: seq<Apartment>, fields: seq<AddressField>)
    ensures CountAll(apartments, fields).Failure? <==> exists i | 0 <= i < |apartments| :: apartments[i].address.None?
    ensures |apartments| == 0 ==> CountAll(apartments, fields) == Success(map[])
    decreases |apartments|
  {
    if |apartments| > 0 {
      var n := |apartments| - 1;
      var prefix := apartments[..n];
      CountAllFails(prefix, fields);
      assert forall i | 0 <= i < n :: prefix[i] == apartments[i];
    }
  }

  /** When the loop raises, it names the first apartment without an address. */
  lemma {:induction false} CountAllFirstMissing(apartments: seq<Apartment>, fields: seq<AddressField>)
    requires CountAll(apartments, fields).Failure?
    ensures var p := CountAll(apartments, fields).error.position;
            && p < |apartments| && apartments[p].address.None?
            && forall i | 0 <= i < p :: apartments[i].address.Some?
    decreases |apartments|
  {
    var n := |apartments| - 1;
    var prefix := apartments[..n];
    assert forall i | 0 <= i < n :: prefix[i] == apartments[i];
    if CountAll(prefix, fields).Failure? {
      CountAllFirstMissing(prefix, fields);
    } else {
      CountAllFails(prefix, fields);
    }
  }

  /** Every apartment has an address. */
  predicate AllAddressed(apartments: seq<Apartment>) {
    forall i | 0 <= i < |apartments| :: apartments[i].address.Some?
  }

  /** The values of `field` over the apartments, in order. */
  function Values(apartments: seq<Apartment>, field: AddressField): (vs: seq<Option<string>>)
    requires AllAddressed(apartments)
    ensures |vs| == |apartments|
    ensures forall i | 0 <= i < |vs| :: vs[i] == ValueOf(apartments[i].address.value, field)
  {
    seq(|apartments|, i requires 0 <= i < |apartments| && apartments[i].address.Some? =>
      ValueOf(apartments[i].address.value, field))
  }

  /** The loop on a list whose apartments all have addresses is the loop on all but the last
      followed by counting the last. */
  lemma CountAllLast(apartments: seq<Apartment>, fields: seq<AddressField>)
    requires |apartments| > 0 && AllAddressed(apartments)
    ensures CountAll(apartments[..|apartments| - 1], fields).Success?
    ensures CountAll(apartments, fields) ==
            Success(PutAll(CountAll(apartments[..|apartments| - 1], fields).value,
                           apartments[|apartments| - 1].address.value, fields))
  {
    var n := |apartments| - 1;
    CountAllFails(apartments[..n], fields);
  }

  /** On a non-empty list the loop keeps a tally for each listed field and nothing else. */
  lemma {:induction false} CountAllKeys(apartments: seq<Apartment>, fields: seq<AddressField>, key: string)
    requires |apartments| > 0 && AllAddressed(apartments)
    ensures CountAll(apartments, fields).Success?
    ensures key in CountAll(apartments, fields).value <==> exists f | f in fields :: Name(f) == key
    decreases |apartments|
  {
    var n := |apartments| - 1;
    var prefix := apartments[..n];
    CountAllLast(apartments, fields);
    var before := CountAll(prefix, fields).value;
    PutAllKeys(before, apartments[n].address.value, fields, key);
    if n > 0 {
      assert forall i | 0 <= i < n :: prefix[i] == apartments[i];
      CountAllKeys(prefix, fields, key);
    } else {
      assert before == map[];
    }
  }

  /** Each listed field's tally counts a value once per apartment having it. */
  lemma {:induction false} CountAllTally(apartments: seq<Apartment>, fields: seq<AddressField>, f: AddressField, v: Option<string>)
    requires AllAddressed(apartments)
    requires forall i, j | 0 <= i < j < |fields| :: fields[i] != fields[j]
    requires f in fields
    ensures CountAll(apartments, fields).Success?
    ensures Get(TallyOf(CountAll(apartments, fields).value, Name(f)), v) == multiset(Values(apartments, f))[v]
    ensures v in TallyOf(CountAll(apartments, fields).value, Name(f)) <==> v in Values(apartments, f)
    decreases |apartments|
  {
    if |apartments| == 0 {
      CountAllFails(apartments, fields);
    } else {
      var n := |apartments| - 1;
      assert AllAddressed(apartments[..n]);
      CountAllLast(apartments, fields);
      CountAllTally(apartments[..n], fields, f, v);
      var before := CountAll(apartments[..n], fields).value;
      var address := apartments[n].address.value;
      PutAllTallies(before, address, fields, f);
      ValuesLast(apartments, f);
    }
  }

  /** The values of a list are those of all but the last apartment, then the last one's. */
  lemma ValuesLast(apartments: seq<Apartment>, f: AddressField)
    requires |apartments| > 0 && AllAddressed(apartments)
    ensures AllAddressed(apartments[..|apartments| - 1])
    ensures Values(apartments, f) ==
            Values(apartments[..|apartments| - 1], f) + [ValueOf(apartments[|apartments| - 1].address.value, f)]
  {
    var n := |apartments| - 1;
    var prefix := apartments[..n];
    assert forall i | 0 <= i < n :: prefix[i] == apartments[i];
    var whole := Values(apartments, f);
    var joined := Values(prefix, f) + [ValueOf(apartments[n].address.value, f)];
    assert |whole| == |joined|;
    forall i | 0 <= i < |whole|
      ensures whole[i] == joined[i]
    {
      if i < n {
        assert joined[i] == Values(prefix, f)[i];
      }
    }
  }

  /** The counter raises exactly when some apartment has no address, naming the first one. */
  lemma AddressCounterFails(apartments: seq<Apartment>)
    ensures AddressCounter(apartments).Failure? <==> exists i | 0 <= i < |apartments| :: apartments[i].address.None?
    ensures AddressCounter(apartments).Failure? ==>
              var p := AddressCounter(apartments).error.position;
              && p < |apartments| && apartments[p].address.None?
              && forall i | 0 <= i < p :: apartments[i].address.Some?
    ensures |apartments| == 0 ==> AddressCounter(apartments) == Success(map[])
  {
    CountAllFails(apartments, Fields());
    if AddressCounter(apartments).Failure? {
      CountAllFirstMissing(apartments, Fields());
    }
  }

  /** The counter is exactly the multiset of each field's values: a non-empty list gives a
      tally under each of the seven field names and nothing else, each tally counts a value
      once per apartment having it, and a value no apartment has is absent. */
  lemma AddressCounterCounts(apartments: seq<Apartment>)
    requires |apartments| > 0 && AllAddressed(apartments)
    ensures AddressCounter(apartments).Success?
    ensures var count := AddressCounter(apartments).value;
            && (forall key :: key in count <==> exists f :: Name(f) == key)
            && (forall f, v :: Get(TallyOf(count, Name(f)), v) == multiset(Values(apartments, f))[v])
            && (forall f, v :: v in TallyOf(count, Name(f)) <==> v in Values(apartments, f))
  {
    CountAllFails(apartments, Fields());
    var count := AddressCounter(apartments).value;
    forall key
      ensures key in count <==> exists f :: Name(f) == key
    {
      CountAllKeys(apartments, Fields(), key);
      if exists f :: Name(f) == key {
        var f :| Name(f) == key;
        FieldsComplete(f);
      }
    }
    forall f, v
      ensures Get(TallyOf(count, Name(f)), v) == multiset(Values(apartments, f))[v]
      ensures v in TallyOf(count, Name(f)) <==> v in Values(apartments, f)
    {
      FieldsComplete(f);
      CountAllTally(apartments, Fields(), f, v);
    }
  }
  /** The sum of `tally.get(v, 0)` over the values `keys` lists. */
  function SumGet(tally: Tally, keys: seq<Option<string>>): int {
    if |keys| == 0 then 0 else Get(tally, keys[0]) + SumGet(tally, keys[1..])
  }

  predicate Distinct<T(==)>(keys: seq<T>) {
    forall i, j | 0 <= i < j < |keys| :: keys[i] != keys[j]
  }

  /** How many times the elements of `m` are counted when `keys` is walked. */
  function CountSum<T>(m: multiset<T>, keys: seq<T>): nat {
    if |keys| == 0 then 0 else m[keys[0]] + CountSum(m, keys[1..])
  }

  lemma {:induction false} CountSumEmpty<T>(m: multiset<T>, keys: seq<T>)
    requires |m| == 0
    ensures CountSum(m, keys) == 0
  {
    if |keys| > 0 {
      CountSumEmpty(m, keys[1..]);
    }
  }

  lemma {:induction false} CountSumAdd<T>(m: multiset<T>, x: T, keys: seq<T>)
    ensures CountSum(m + multiset{x}, keys) == CountSum(m, keys) + multiset(keys)[x]
  {
    if |keys| > 0 {
      CountSumAdd(m, x, keys[1..]);
      assert keys == [keys[0]] + keys[1..];
    }
  }

  lemma {:induction false} DistinctOnce<T>(keys: seq<T>, x: T)
    requires Distinct(keys) && x in keys
    ensures multiset(keys)[x] == 1
  {
    assert keys == [keys[0]] + keys[1..];
    if keys[0] != x {
      DistinctOnce(keys[1..], x);
    } else {
      assert x !in keys[1..];
    }
  }

  /** Walking distinct keys that cover `vs` counts every element of `vs` once. */
  lemma {:induction false} CountSumSeq<T>(vs: seq<T>, keys: seq<T>)
    requires Distinct(keys)
    requires forall i | 0 <= i < |vs| :: vs[i] in keys
    ensures CountSum(multiset(vs), keys) == |vs|
  {
    if |vs| > 0 {
      var init := vs[..|vs| - 1];
      assert vs == init + [vs[|vs| - 1]];
      assert multiset(vs) == multiset(init) + multiset{vs[|vs| - 1]};
      CountSumSeq(init, keys);
      CountSumAdd(multiset(init), vs[|vs| - 1], keys);
      DistinctOnce(keys, vs[|vs| - 1]);
    } else {
      CountSumEmpty(multiset(vs), keys);
    }
  }

  lemma {:induction false} SumGetCounts(tally: Tally, m: multiset<Option<string>>, keys: seq<Option<string>>)
    requires forall v :: Get(tally, v) == m[v]
    ensures SumGet(tally, keys) == CountSum(m, keys)
  {
    if |keys| > 0 {
      SumGetCounts(tally, m, keys[1..]);
    }
  }

  /** The totals: over any list naming each value of `f` once, the counts under `f`'s name
      add up to the number of apartments. */
  lemma AddressCounterTotals(apartments: seq<Apartment>, f: AddressField, keys: seq<Option<string>>)
    requires |apartments| > 0 && AllAddressed(apartments)
    requires Distinct(keys)
    requires forall i | 0 <= i < |apartments| :: ValueOf(apartments[i].address.value, f) in keys
    ensures AddressCounter(apartments).Success?
    ensures SumGet(TallyOf(AddressCounter(apartments).value, Name(f)), keys) == |apartments|
  {
    AddressCounterCounts(apartments);
    var tally := TallyOf(AddressCounter(apartments).value, Name(f));
    var vs := Values(apartments, f);
    assert forall v :: Get(tally, v) == multiset(vs)[v];
    SumGetCounts(tally, multiset(vs), keys);
    CountSumSeq(vs, keys);
  }
}
