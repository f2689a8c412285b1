/**
 * The constant `Request::REQUEST_TYPES`: a PHP array literal whose fourteen entries map
 * each variant's own `TYPE` constant to that variant's class.
 */
module Registry {
  import opened Wrappers
  import opened Variants

  /** The classes in the order the array literal lists them. */
  const RegisteredClasses: seq<RequestClass> := [
    IntentRequest, LaunchRequest, SessionEndedRequest,
    PlaybackStartedRequest, PlaybackNearlyFinishedRequest, PlaybackFinishedRequest,
    PlaybackStoppedRequest, PlaybackFailedRequest,
    NextCommandIssued, PauseCommandIssued, PlayCommandIssued, PreviousCommandIssued,
    ExceptionEncounteredRequest,
    ElementSelectedRequest]

  /** The literal's `key => value` pairs, in order: each key is its class's `TYPE`. */
  function Entries(v: VariantClasses): (es: seq<(string, RequestClass)>)
    ensures |es| == 14
    ensures forall c :: es[Position(c)] == (v.typeOf(c), c)
  {
    seq(|RegisteredClasses|, i requires 0 <= i < |RegisteredClasses| =>
      (v.typeOf(RegisteredClasses[i]), RegisteredClasses[i]))
  }

  /**
   * The array a PHP array literal denotes: entries are inserted left to right, and a key that
   * appears again overwrites the earlier value.
   */
  function Build(es: seq<(string, RequestClass)>): (m: map<string, RequestClass>)
    ensures |m| <= |es|
  {
    if es == [] then map[]
    else Build(es[..|es| - 1])[es[|es| - 1].0 := es[|es| - 1].1]
  }

  /** `self::REQUEST_TYPES`: every class's `TYPE` is one of its keys. */
  function RequestTypes(v: VariantClasses): (m: map<string, RequestClass>)
    ensures forall c :: v.typeOf(c) in m
  {
    var es := Entries(v);
    assert forall c :: v.typeOf(c) in Build(es) by {
      forall c ensures v.typeOf(c) in Build(es) {
        BuildKeys(es, v.typeOf(c));
        assert es[Position(c)].0 == v.typeOf(c);
      }
    }
    Build(es)
  }

  /**
   * `isset(self::REQUEST_TYPES[$type])` followed by the lookup: it succeeds exactly for the
   * `TYPE` of some class, and the class it yields has `typ` as its `TYPE`.
   */
  function Resolve(v: VariantClasses, typ: string): (r: Option<RequestClass>)
    ensures r.Some? <==> exists c :: v.typeOf(c) == typ
    ensures r.Some? ==> v.typeOf(r.value) == typ
  {
    RegistryKeys(v, typ);
    if typ in RequestTypes(v) then
      RegistryRoundTrip(v, typ);
      Some(RequestTypes(v)[typ])
    else None
  }

  /** The keys of an array literal are exactly the keys written in it. */
  lemma {:induction false} BuildKeys(es: seq<(string, RequestClass)>, k: string)
    ensures k in Build(es) <==> exists i :: 0 <= i < |es| && es[i].0 == k
  {
    if es != [] {
      var init := es[..|es| - 1];
      BuildKeys(init, k);
      if k in Build(init) {
        var i :| 0 <= i < |init| && init[i].0 == k;
        assert es[i].0 == k;
      }
      if exists i :: 0 <= i < |es| && es[i].0 == k {
        var i :| 0 <= i < |es| && es[i].0 == k;
        if i < |es| - 1 {
          assert init[i].0 == k;
        }
      }
    }
  }

  /** The value under a key is the one written in the LAST entry with that key. */
  lemma {:induction false} BuildLastWins(es: seq<(string, RequestClass)>, j: int)
    requires 0 <= j < |es|
    requires forall i :: j < i < |es| ==> es[i].0 != es[j].0
    ensures es[j].0 in Build(es) && Build(es)[es[j].0] == es[j].1
  {
    if j < |es| - 1 {
      var init := es[..|es| - 1];
      assert init[j] == es[j];
      BuildLastWins(init, j);
    }
  }

  /** When no key repeats, the array holds one element per entry. */
  lemma {:induction false} BuildSize(es: seq<(string, RequestClass)>)
    requires forall i, j :: 0 <= i < j < |es| ==> es[i].0 != es[j].0
    ensures |Build(es)| == |es|
  {
    if es != [] {
      var init := es[..|es| - 1];
      BuildSize(init);
      BuildKeys(init, es[|es| - 1].0);
      assert es[|es| - 1].0 !in Build(init);
    }
  }

  /** Every value stored under a key comes from some entry written with that key. */
  lemma {:induction false} BuildValueFromEntry(es: seq<(string, RequestClass)>, k: string)
    requires k in Build(es)
    ensures exists i :: 0 <= i < |es| && es[i] == (k, Build(es)[k])
  {
    var init := es[..|es| - 1];
    if es[|es| - 1].0 != k {
      BuildValueFromEntry(init, k);
      var i :| 0 <= i < |init| && init[i] == (k, Build(init)[k]);
      assert es[i] == init[i];
    }
  }

  /** The position of each class in the literal. */
  function Position(c: RequestClass): (i: nat)
    ensures i < |RegisteredClasses| && RegisteredClasses[i] == c
  {
    match c
    case IntentRequest => 0
    case LaunchRequest => 1
    case SessionEndedRequest => 2
    case PlaybackStartedRequest => 3
    case PlaybackNearlyFinishedRequest => 4
    case PlaybackFinishedRequest => 5
    case PlaybackStoppedRequest => 6
    case PlaybackFailedRequest => 7
    case NextCommandIssued => 8
    case PauseCommandIssued => 9
    case PlayCommandIssued => 10
    case PreviousCommandIssued => 11
    case ExceptionEncounteredRequest => 12
    case ElementSelectedRequest => 13
  }

  /**
   * Registry round trip: the class stored under a key has that key as its own `TYPE`, so
   * distinct keys name distinct classes.
   */
  lemma RegistryRoundTrip(v: VariantClasses, k: string)
    requires k in RequestTypes(v)
    ensures v.typeOf(RequestTypes(v)[k]) == k
  {
    BuildValueFromEntry(Entries(v), k);
  }

  /** A string is a registry key exactly when it is some class's `TYPE`. */
  lemma RegistryKeys(v: VariantClasses, k: string)
    ensures k in RequestTypes(v) <==> exists c :: v.typeOf(c) == k
  {
    var es := Entries(v);
    BuildKeys(es, k);
    if exists c :: v.typeOf(c) == k {
      var c :| v.typeOf(c) == k;
      assert es[Position(c)].0 == k;
    }
  }

  /**
   * Every one of the fourteen classes is reachable through its own `TYPE` exactly when the
   * `TYPE` constants are pairwise distinct; a repeated constant shadows the earlier class.
   */
  lemma RegistryReachesEveryClass(v: VariantClasses)
    ensures DistinctTypes(v) <==> forall c :: Resolve(v, v.typeOf(c)) == Some(c)
  {
    if DistinctTypes(v) {
      forall c ensures Resolve(v, v.typeOf(c)) == Some(c) {
        var es := Entries(v);
        var j := Position(c);
        forall i | j < i < |es| ensures es[i].0 != es[j].0 {
          assert RegisteredClasses[i] != c;
        }
        BuildLastWins(es, j);
      }
    }
    if forall c :: Resolve(v, v.typeOf(c)) == Some(c) {
      forall c, d | v.typeOf(c) == v.typeOf(d) ensures c == d {
        assert Resolve(v, v.typeOf(c)) == Some(c);
        assert Resolve(v, v.typeOf(d)) == Some(d);
      }
    }
  }

  /** With distinct `TYPE` constants the registry has exactly fourteen keys. */
  lemma RegistrySize(v: VariantClasses)
    requires DistinctTypes(v)
    ensures |RequestTypes(v)| == 14
  {
    var es := Entries(v);
    forall i, j | 0 <= i < j < |es| ensures es[i].0 != es[j].0 {
      assert RegisteredClasses[i] != RegisteredClasses[j];
    }
    BuildSize(es);
  }
}
