/** Header predicates and the subscription filter built on them. */
module HeaderFilters {
  import opened Options
  import opened Envelopes

  datatype HeaderFilter =
    | Any
    | Exact(key: string, value: string)
    | Prefix(key: string, valuePrefix: string)
    | All(filters: seq<HeaderFilter>)
    | AnyOf(filters: seq<HeaderFilter>)
    | Has(key: string)
    | Not(inner: HeaderFilter)
  {
    predicate Matches(headers: Headers) {
      match this
      case Any => true
      case Exact(key, value) => key in headers && headers[key] == value
      case Prefix(key, valuePrefix) => key in headers && valuePrefix <= headers[key]
      case All(filters) => forall f | f in filters :: f.Matches(headers)
      case AnyOf(filters) => exists f | f in filters :: f.Matches(headers)
      case Has(key) => key in headers
      case Not(inner) => !inner.Matches(headers)
    }
  }

  function Negated(fs: seq<HeaderFilter>): seq<HeaderFilter> {
    seq(|fs|, i requires 0 <= i < |fs| => Not(fs[i]))
  }

  /** `All` and `AnyOf` split at their last member, and `Not` is the complement. */
  lemma {:induction false} ListLaws(h: Headers, f: HeaderFilter, fs: seq<HeaderFilter>)
    ensures Any.Matches(h) && (Not(f).Matches(h) <==> !f.Matches(h))
    ensures All([]).Matches(h) && !AnyOf([]).Matches(h)
    ensures All(fs + [f]).Matches(h) <==> All(fs).Matches(h) && f.Matches(h)
    ensures AnyOf(fs + [f]).Matches(h) <==> AnyOf(fs).Matches(h) || f.Matches(h)
  {
    var longer := fs + [f];
    assert forall g :: g in longer <==> g in fs || g == f;
  }

  lemma {:induction false} NegatedMembers(fs: seq<HeaderFilter>)
    ensures forall g :: g in fs ==> Not(g) in Negated(fs)
    ensures forall n :: n in Negated(fs) ==> n.Not? && n.inner in fs
  {
    forall g | g in fs ensures Not(g) in Negated(fs) {
      var i :| 0 <= i < |fs| && fs[i] == g;
      assert Negated(fs)[i] == Not(g);
    }
  }

  /** `All` and `AnyOf` are dual under `Not`. */
  lemma {:induction false} ListDuality(h: Headers, fs: seq<HeaderFilter>)
    ensures Not(All(fs)).Matches(h) <==> AnyOf(Negated(fs)).Matches(h)
    ensures Not(AnyOf(fs)).Matches(h) <==> All(Negated(fs)).Matches(h)
  {
    NegatedMembers(fs);
    assert forall g :: g in fs ==> (Not(g).Matches(h) <==> !g.Matches(h));
    assert forall n :: n in Negated(fs) ==> (n.Matches(h) <==> !n.inner.Matches(h));
  }

  /** What a header map with, and without, the key satisfies: an exact value is a prefix of
      itself, the empty prefix only asks for the header, and a value that does not begin with
      the prefix is refused. */
  lemma HeaderValues(h: Headers, k: string, v: string, rest: string, w: string)
    ensures k !in h ==> !Has(k).Matches(h) && !Exact(k, v).Matches(h) && !Prefix(k, v).Matches(h)
    ensures Has(k).Matches(h[k := w])
    ensures Exact(k, v).Matches(h[k := w]) <==> w == v
    ensures Prefix(k, v).Matches(h[k := v + rest])
    ensures Prefix(k, v).Matches(h[k := w]) <==> |w| >= |v| && w[..|v|] == v
    ensures Prefix(k, "").Matches(h) <==> Has(k).Matches(h)
    ensures Exact(k, v).Matches(h) ==> Prefix(k, v).Matches(h)
  {
  }

  /** What a subscriber wants of one channel. */
  datatype Filter = Filter(
    channel: RoomId,
    kinds: Option<seq<Kind>>,
    delivery: Option<seq<DeliveryClass>>,
    headers: HeaderFilter)
  {
    predicate Matches(env: Envelope) {
      && env.channel == channel
      && (kinds.Some? ==> env.kind in kinds.value)
      && (delivery.Some? ==> env.delivery in delivery.value)
      && headers.Matches(env.headers)
    }
  }

  /** The filter that asks only for a channel, as `Filter::channel` builds it. */
  function Everything(room: RoomId): Filter {
    Filter(room, None, None, Any)
  }

  /** A filter is its four demands and nothing else: the channel filter takes exactly the
      channel's events, and adding a kind list, a class list or a header predicate to any filter
      keeps exactly those that are in the list or satisfy the predicate. */
  lemma FilterLaws(f: Filter, room: RoomId, ks: seq<Kind>, cs: seq<DeliveryClass>, h: HeaderFilter, e: Envelope)
    ensures Everything(room).Matches(e) <==> e.channel == room
    ensures f.(kinds := Some(ks)).Matches(e) <==> f.(kinds := None).Matches(e) && exists i :: 0 <= i < |ks| && ks[i] == e.kind
    ensures f.(delivery := Some(cs)).Matches(e) <==> f.(delivery := None).Matches(e) && exists i :: 0 <= i < |cs| && cs[i] == e.delivery
    ensures f.(headers := h).Matches(e) <==> f.(headers := Any).Matches(e) && h.Matches(e.headers)
    ensures f.Matches(e) ==> e.channel == f.channel
  {
  }
}
