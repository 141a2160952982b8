/** The read-only views the valuation context is built from: valued
    properties (simple or iterable), instances, deployed modules and
    platforms. They are immutable snapshots handed over by the query side. */
module PropertyViews {

  /** A valued property: a simple name/value pair (`ValuedPropertyView`) or a
      named list of repeated blocks (`IterableValuedPropertyView`). */
  datatype Property =
    | Valued(name: string, value: string)
    | Iterable(name: string, items: seq<IterableItem>)

  /** One block of an iterable property: a title and its own properties. */
  datatype IterableItem = IterableItem(title: string, properties: seq<Property>)

  /** `ValuedPropertyView`: the simple kind only. */
  type ValuedProperty = p: Property | p.Valued? witness Valued("", "")

  /** An instance of a deployed module and the properties valued for it. */
  datatype Instance = Instance(name: string, valuedProperties: seq<ValuedProperty>)

  /** A module deployed on a platform. `modulePath` holds the logical groups,
      each one preceded by `#`; `instancesModel` lists the property names the
      module's templates declare at instance level. */
  datatype DeployedModule = DeployedModule(
    name: string,
    version: string,
    modulePath: string,
    instances: seq<Instance>,
    instancesModel: seq<string>)

  /** A platform: the application it belongs to, its own name and version,
      and its global properties (the part of a platform the context reads). */
  datatype Platform = Platform(
    applicationName: string,
    platformName: string,
    version: string,
    globalProperties: seq<ValuedProperty>)

  /** The names carried by a list of properties. */
  function Names(s: seq<Property>): set<string>
  {
    set p | p in s :: p.name
  }

  /** The names of a list with one more entry in front. */
  lemma NamesCons(p: Property, s: seq<Property>)
    ensures Names([p] + s) == {p.name} + Names(s)
  {
    assert forall q :: q in [p] + s <==> q == p || q in s;
  }

  /** The simple members of a list, in their order: the stream filtered on
      `ValuedPropertyView.class::isInstance`. */
  function SimpleOnly(ps: seq<Property>): (r: seq<ValuedProperty>)
    ensures |r| <= |ps|
  {
    if ps == [] then []
    else if ps[0].Valued? then [ps[0]] + SimpleOnly(ps[1..])
    else SimpleOnly(ps[1..])
  }

  /** Exactly the simple members survive the filter. */
  lemma {:induction false} SimpleOnlyMembers(ps: seq<Property>, p: Property)
    ensures p in SimpleOnly(ps) <==> p in ps && p.Valued?
  {
    if ps != [] {
      SimpleOnlyMembers(ps[1..], p);
      assert p in ps <==> p == ps[0] || p in ps[1..] by {
        assert ps == [ps[0]] + ps[1..];
      }
    }
  }

  /** Filtering keeps the relative order: it distributes over concatenation. */
  lemma {:induction false} SimpleOnlyConcat(a: seq<Property>, b: seq<Property>)
    ensures SimpleOnly(a + b) == SimpleOnly(a) + SimpleOnly(b)
  {
    if a != [] {
      var ab := a + b;
      assert ab[0] == a[0];
      assert ab[1..] == a[1..] + b;
      SimpleOnlyConcat(a[1..], b);
      if a[0].Valued? {
        assert SimpleOnly(ab) == [a[0]] + SimpleOnly(a[1..] + b);
        assert SimpleOnly(a) == [a[0]] + SimpleOnly(a[1..]);
      } else {
        assert SimpleOnly(ab) == SimpleOnly(a[1..] + b);
        assert SimpleOnly(a) == SimpleOnly(a[1..]);
      }
    } else {
      assert a + b == b;
    }
  }
}
