/** The coalesced ephemeral cache: the latest value per key, each with its own time to live. */
module Ephemeral {
  import opened Options
  import opened Envelopes

  const HEADER_EPHEMERAL_TTL_MS: string := "airc.ephemeral_ttl_ms"
  const U64: nat := 0x1_0000_0000_0000_0000

  predicate IsDigit(c: char) {
    '0' <= c <= '9'
  }

  predicate AllDigits(s: string) {
    forall i :: 0 <= i < |s| ==> IsDigit(s[i])
  }

  function Digits(s: string): (n: nat)
    requires AllDigits(s)
  {
    if s == [] then 0
    else
      assert IsDigit(s[|s| - 1]);
      10 * Digits(s[..|s| - 1]) + (s[|s| - 1] as int - '0' as int)
  }

  /** Decimal text of an unsigned 64-bit number, with an optional plus sign. */
  function ParseU64(s: string): (r: Option<nat>)
    ensures r.Some? ==> r.value < U64
  {
    var digits := if s != [] && s[0] == '+' then s[1..] else s;
    if digits == [] || !AllDigits(digits) then None
    else if Digits(digits) >= U64 then None
    else Some(Digits(digits))
  }

  function HexDigit(n: nat): char
    requires n < 16
  {
    "0123456789abcdef"[n]
  }

  function Hex(n: nat, width: nat): (s: string)
    ensures |s| == width
  {
    if width == 0 then "" else Hex(n / 16, width - 1) + [HexDigit(n % 16)]
  }

  /** The hyphenated text of a 128-bit event id. */
  function IdText(id: EventId): string {
    var h := Hex(id, 32);
    h[..8] + "-" + h[8..12] + "-" + h[12..16] + "-" + h[16..20] + "-" + h[20..]
  }

  datatype Entry = Entry(env: Envelope, storedAtMs: nat, ttlMs: nat)

  type Latest = map<string, Entry>

  function KeyOf(env: Envelope): string {
    if env.coalesceKey.Some? then env.coalesceKey.value else IdText(env.eventId)
  }

  /** The envelope's own time to live if its header carries a well-formed one. */
  function TtlOf(env: Envelope, default: nat): nat {
    if HEADER_EPHEMERAL_TTL_MS !in env.headers then default
    else
      var own := ParseU64(env.headers[HEADER_EPHEMERAL_TTL_MS]);
      if own.Some? then own.value else default
  }

  /** A time to live of zero never ends. */
  predicate Expired(e: Entry, now: nat) {
    e.ttlMs != 0 && (if now >= e.storedAtMs then now - e.storedAtMs else 0) >= e.ttlMs
  }

  function Live(m: Latest, now: nat): Latest {
    map k | k in m && !Expired(m[k], now) :: m[k]
  }

  class EphemeralCache {
    var latest: Latest
    const ttlMs: nat

    constructor (ttlMs: nat)
      ensures latest == map[] && this.ttlMs == ttlMs
    {
      latest := map[];
      this.ttlMs := ttlMs;
    }

    method Coalesce(env: Envelope, now: nat)
      modifies this
      ensures latest == old(latest)[KeyOf(env) := Entry(env, now, TtlOf(env, ttlMs))]
    {
      latest := latest[KeyOf(env) := Entry(env, now, TtlOf(env, ttlMs))];
    }

    method Get(key: string, now: nat) returns (r: Option<Envelope>)
      ensures r == if key in Live(latest, now) then Some(Live(latest, now)[key].env) else None
    {
      if key in latest && !Expired(latest[key], now) { r := Some(latest[key].env); } else { r := None; }
    }

    /** Drop expired entries and say how many went. */
    method Sweep(now: nat) returns (removed: nat)
      modifies this
      ensures latest == Live(old(latest), now) && removed == old(|latest|) - |latest|
    {
      var before := |latest|;
      var kept := Live(latest, now);
      assert kept.Keys <= latest.Keys;
      assert latest.Keys == kept.Keys + (latest.Keys - kept.Keys);
      removed := before - |kept|;
      latest := kept;
    }

    /** Every live value, once per key, in no particular order. */
    method Snapshot(now: nat) returns (out: seq<Envelope>, ghost keys: seq<string>)
      ensures |out| == |Live(latest, now)|
      ensures forall e :: e in out <==> exists k :: k in Live(latest, now) && Live(latest, now)[k].env == e
      ensures |out| == |keys|
      ensures forall i, j :: 0 <= i < j < |keys| ==> keys[i] != keys[j]
      ensures forall k :: k in keys <==> k in Live(latest, now)
      ensures forall i :: 0 <= i < |out| ==> out[i] == Live(latest, now)[keys[i]].env
    {
      out, keys := [], [];
      var live := Live(latest, now);
      var rest := live.Keys;
      while rest != {}
        invariant rest <= live.Keys && |out| == |keys| == |live| - |rest|
        invariant forall i, j :: 0 <= i < j < |keys| ==> keys[i] != keys[j]
        invariant forall k :: k in keys <==> k in live && k !in rest
        invariant forall i :: 0 <= i < |out| ==> out[i] == live[keys[i]].env
        decreases |rest|
      {
        var k :| k in rest;
        out, keys := out + [live[k].env], keys + [k];
        rest := rest - {k};
      }
    }

    method LiveLen(now: nat) returns (n: nat)
      ensures n == |Live(latest, now)|
    {
      n := 0;
      var rest := latest.Keys;
      ghost var seen: set<string> := {};
      while rest != {}
        invariant rest + seen == latest.Keys && rest !! seen
        invariant n == |set k | k in seen && !Expired(latest[k], now)|
        decreases |rest|
      {
        var k :| k in rest;
        LiveOneMore(latest, seen, k, now);
        if !Expired(latest[k], now) { n := n + 1; }
        seen := seen + {k};
        rest := rest - {k};
      }
      assert (set k | k in seen && !Expired(latest[k], now)) == Live(latest, now).Keys;
    }
  }

  lemma LiveOneMore(latest: Latest, seen: set<string>, k: string, now: nat)
    requires seen <= latest.Keys && k in latest && k !in seen
    ensures |set x | x in seen + {k} && !Expired(latest[x], now)|
            == |set x | x in seen && !Expired(latest[x], now)| + if Expired(latest[k], now) then 0 else 1
  {
    var counted := set x | x in seen && !Expired(latest[x], now);
    assert (set x | x in seen + {k} && !Expired(latest[x], now)) == if Expired(latest[k], now) then counted else counted + {k};
  }

  // ---------------------------------------------------------------- sweeping is unobservable

  datatype Op = Write(env: Envelope, now: nat) | SweepAt(now: nat)

  function Time(op: Op): nat {
    op.now
  }

  /** What the cache holds after the operations. */
  function Cached(ttlMs: nat, ops: seq<Op>): Latest {
    if ops == [] then map[]
    else
      var m := Cached(ttlMs, ops[..|ops| - 1]);
      match ops[|ops| - 1]
      case Write(env, now) => m[KeyOf(env) := Entry(env, now, TtlOf(env, ttlMs))]
      case SweepAt(now) => Live(m, now)
  }

  /** The last write per key, with every sweep left out. */
  function LastWrites(ttlMs: nat, ops: seq<Op>): Latest {
    if ops == [] then map[]
    else
      var m := LastWrites(ttlMs, ops[..|ops| - 1]);
      match ops[|ops| - 1]
      case Write(env, now) => m[KeyOf(env) := Entry(env, now, TtlOf(env, ttlMs))]
      case SweepAt(now) => m
  }

  /** `c` is `w` without some keys, all of them expired at `now`. */
  ghost predicate Trails(c: Latest, w: Latest, now: nat) {
    && (forall k :: k in c ==> k in w && w[k] == c[k])
    && (forall k :: k in w && k !in c ==> Expired(w[k], now))
  }

  /** The cache and the plain map differ only in keys that have expired for good. */
  lemma {:induction false} SweptIsExpired(ttlMs: nat, ops: seq<Op>, now: nat)
    requires forall i :: 0 <= i < |ops| ==> Time(ops[i]) <= now
    ensures Trails(Cached(ttlMs, ops), LastWrites(ttlMs, ops), now)
  {
    if ops != [] {
      var front, last := ops[..|ops| - 1], ops[|ops| - 1];
      SweptIsExpired(ttlMs, front, now);
      var c, w := Cached(ttlMs, front), LastWrites(ttlMs, front);
      if last.Write? {
        WriteBoth(c, w, KeyOf(last.env), Entry(last.env, last.now, TtlOf(last.env, ttlMs)), now);
      } else {
        SweepOne(c, w, last.now, now);
      }
    }
  }

  lemma WriteBoth(c: Latest, w: Latest, key: string, e: Entry, now: nat)
    requires Trails(c, w, now)
    ensures Trails(c[key := e], w[key := e], now)
  {
  }

  lemma SweepOne(c: Latest, w: Latest, at: nat, now: nat)
    requires Trails(c, w, now) && at <= now
    ensures Trails(Live(c, at), w, now)
  {
  }

  /** For every sequence of writes and sweeps, a read no earlier than any of them sees exactly
      the last write per key judged by its own time to live, as if nothing had been swept. */
  lemma SweepIsUnobservable(ttlMs: nat, ops: seq<Op>, now: nat)
    requires forall i :: 0 <= i < |ops| ==> Time(ops[i]) <= now
    ensures Live(Cached(ttlMs, ops), now) == Live(LastWrites(ttlMs, ops), now)
  {
    SweptIsExpired(ttlMs, ops, now);
  }

  // ---------------------------------------------------------------- keys and times to live

  /** Decimal text without leading zeros. */
  function Decimal(n: nat): (s: string)
    ensures s != [] && AllDigits(s)
  {
    var digit := ['0' + (n % 10) as char];
    if n < 10 then digit else Decimal(n / 10) + digit
  }

  lemma {:induction false} DigitsOfDecimal(n: nat)
    ensures Digits(Decimal(n)) == n
  {
    var d := Decimal(n);
    assert d[|d| - 1] as int - '0' as int == n % 10;
    if n >= 10 {
      DigitsOfDecimal(n / 10);
      assert d[..|d| - 1] == Decimal(n / 10);
    } else {
      assert d[..|d| - 1] == [];
    }
  }

  /** A number is read back from its text, with or without a sign, exactly if it fits; text
      with anything but digits after the sign, or with none, is no number. */
  lemma ParsedExactlyWhen(n: nat, s: string)
    ensures ParseU64(Decimal(n)) == (if n < U64 then Some(n) else None)
    ensures ParseU64("+" + Decimal(n)) == (if n < U64 then Some(n) else None)
    ensures ParseU64("") == None && ParseU64("+") == None
    ensures (exists i :: 0 <= i < |s| && !IsDigit(s[i]) && (i > 0 || s[i] != '+')) ==> ParseU64(s) == None
  {
    DigitsOfDecimal(n);
    var d := Decimal(n);
    assert IsDigit(d[0]);
    assert ("+" + d)[1..] == d;
    assert "+"[1..] == "";
    if i :| 0 <= i < |s| && !IsDigit(s[i]) && (i > 0 || s[i] != '+') {
      if s[0] == '+' { assert s[1..][i - 1] == s[i]; }
    }
  }

  /** The time to live an envelope asks for: the number its header spells, and the cache's own
      without the header or with one that is not digits. */
  ghost predicate LivesFor(env: Envelope, default: nat, ttl: nat) {
    var h := HEADER_EPHEMERAL_TTL_MS;
    || (h !in env.headers && ttl == default)
    || (h in env.headers && env.headers[h] == Decimal(ttl) && ttl < U64)
    || (h in env.headers && env.headers[h] == "" && ttl == default)
    || (h in env.headers && (exists i :: 0 <= i < |env.headers[h]| && env.headers[h][i] != '+' && !IsDigit(env.headers[h][i])) && ttl == default)
  }

  lemma TtlIsAskedFor(env: Envelope, default: nat, ttl: nat)
    requires LivesFor(env, default, ttl)
    ensures TtlOf(env, default) == ttl
  {
    var h := HEADER_EPHEMERAL_TTL_MS;
    if h in env.headers { ParsedExactlyWhen(ttl, env.headers[h]); }
  }

  lemma {:induction false} LastWriteStands(ttlMs: nat, ops: seq<Op>, i: nat)
    requires i < |ops| && ops[i].Write?
    requires forall j :: i < j < |ops| && ops[j].Write? ==> KeyOf(ops[j].env) != KeyOf(ops[i].env)
    ensures var w := LastWrites(ttlMs, ops);
            KeyOf(ops[i].env) in w && w[KeyOf(ops[i].env)] == Entry(ops[i].env, ops[i].now, TtlOf(ops[i].env, ttlMs))
  {
    if i < |ops| - 1 { LastWriteStands(ttlMs, ops[..|ops| - 1], i); }
  }

  /** Whatever else is written and swept, the last value written under a key can be read exactly
      until its own time to live has passed since it was written, and for ever if that is
      zero. */
  lemma LiveExactlyWhen(ttlMs: nat, ops: seq<Op>, i: nat, ttl: nat, now: nat)
    requires forall j :: 0 <= j < |ops| ==> Time(ops[j]) <= now
    requires i < |ops| && ops[i].Write? && LivesFor(ops[i].env, ttlMs, ttl)
    requires forall j :: i < j < |ops| && ops[j].Write? ==> KeyOf(ops[j].env) != KeyOf(ops[i].env)
    ensures var key, live := KeyOf(ops[i].env), Live(Cached(ttlMs, ops), now);
            && (key in live <==> ttl == 0 || now < ops[i].now + ttl)
            && (key in live ==> live[key].env == ops[i].env)
  {
    SweepIsUnobservable(ttlMs, ops, now);
    LastWriteStands(ttlMs, ops, i);
    TtlIsAskedFor(ops[i].env, ttlMs, ttl);
    assert Time(ops[i]) <= now;
  }

  function Pow16(width: nat): nat {
    if width == 0 then 1 else 16 * Pow16(width - 1)
  }

  lemma HexDigitsDiffer(a: nat, b: nat)
    requires a < 16 && b < 16 && HexDigit(a) == HexDigit(b)
    ensures a == b
  {
  }

  lemma {:induction false} HexIsInjective(a: nat, b: nat, width: nat)
    requires a < Pow16(width) && b < Pow16(width) && Hex(a, width) == Hex(b, width)
    ensures a == b
  {
    if width > 0 {
      var x, y := Hex(a, width), Hex(b, width);
      assert x[..width - 1] == Hex(a / 16, width - 1) && y[..width - 1] == Hex(b / 16, width - 1);
      HexIsInjective(a / 16, b / 16, width - 1);
      assert x[width - 1] == HexDigit(a % 16) && y[width - 1] == HexDigit(b % 16);
      HexDigitsDiffer(a % 16, b % 16);
    }
  }

  lemma IdTextParts(id: EventId)
    ensures var t, h := IdText(id), Hex(id, 32);
            |t| == 36 && t[..8] + t[9..13] + t[14..18] + t[19..23] + t[24..] == h
  {
    var t, h := IdText(id), Hex(id, 32);
    assert t[..8] == h[..8] && t[9..13] == h[8..12] && t[14..18] == h[12..16] && t[19..23] == h[16..20] && t[24..] == h[20..];
  }

  /** Values with a coalesce key share a slot exactly if their keys agree; values without one
      only if they are the same event. */
  lemma SharedSlot(a: Envelope, b: Envelope)
    ensures a.coalesceKey.Some? && b.coalesceKey.Some? ==> (KeyOf(a) == KeyOf(b) <==> a.coalesceKey == b.coalesceKey)
    ensures a.coalesceKey.None? && b.coalesceKey.None? && a.eventId < Pow16(32) && b.eventId < Pow16(32) ==>
              (KeyOf(a) == KeyOf(b) <==> a.eventId == b.eventId)
  {
    IdTextParts(a.eventId);
    IdTextParts(b.eventId);
    if a.coalesceKey.None? && b.coalesceKey.None? && a.eventId < Pow16(32) && b.eventId < Pow16(32) && KeyOf(a) == KeyOf(b) {
      HexIsInjective(a.eventId, b.eventId, 32);
    }
  }

  /** A clock that runs backwards makes a sweep visible: an entry swept at 5 is missing from
      a read at 0 at which it would still be live. */
  lemma BackwardClockShowsSweep(env: Envelope)
    requires env.headers == map[] && env.coalesceKey == Some("k")
    ensures var ops := [Write(env, 0), SweepAt(5)];
            Live(Cached(5, ops), 0) != Live(LastWrites(5, ops), 0)
  {
    var ops := [Write(env, 0), SweepAt(5)];
    var one := [Write(env, 0)];
    assert ops[..1] == one && one[..0] == [];
    var m: Latest := map["k" := Entry(env, 0, 5)];
    assert Cached(5, one) == m && LastWrites(5, one) == m by {
      assert Cached(5, one[..0]) == map[] && LastWrites(5, one[..0]) == map[];
      assert TtlOf(env, 5) == 5 && KeyOf(env) == "k";
    }
    assert Cached(5, ops) == Live(m, 5) && LastWrites(5, ops) == m;
    assert "k" in Live(m, 0) && "k" !in Live(Live(m, 5), 0);
  }

  /** Drive the cache object through the operations. */
  method RunOps(cache: EphemeralCache, ops: seq<Op>)
    requires cache.latest == map[]
    modifies cache
    ensures cache.latest == Cached(cache.ttlMs, ops)
  {
    for i := 0 to |ops|
      invariant cache.latest == Cached(cache.ttlMs, ops[..i])
    {
      match ops[i] {
        case Write(env, now) => cache.Coalesce(env, now);
        case SweepAt(now) => var removed := cache.Sweep(now);
      }
      assert ops[..i + 1][..i] == ops[..i];
    }
    assert ops[..|ops|] == ops;
  }
}
