/** The handlers of the event indexer: what a log of one chain does to the Redis cache and to the revoked flags of the
    Qdrant points, and why the order in which the chain listeners take the handler mutex does not matter. */
module EventStore {
  import opened Basics
  import opened Bytes
  import opened Wrappers
  import AbiCodec
  import EventData

  type Topic = Word

  /** A log of the contract of one chain. */
  datatype Log = Log(topics: seq<Topic>, data: seq<byte>, txHash: Word)

  /** The two event signatures, hashed, and the points that one page of a Qdrant scroll returns of those that match. */
  datatype Config = Config(registered: Topic, revoked: Topic, page: set<nat> -> set<nat>)

  const PAGE_SIZE: nat := 100

  ghost predicate IsPaging(page: set<nat> -> set<nat>) {
    forall matching :: page(matching) <= matching && |page(matching)| == Min(|matching|, PAGE_SIZE)
  }

  /** A log as the listener of a chain delivers it. */
  datatype Delivery = Delivery(chain: string, log: Log)

  /** The cached document. */
  datatype Entry = Entry(chain: string, fields: EventData.Fields, txHash: Word)

  datatype Point = Point(consentId: string, revoked: bool)

  /** `down` once a handler has panicked, which ends the indexer and leaves the stores as they are. */
  datatype Store = Store(cache: map<string, Entry>, points: map<nat, Point>, down: bool)

  // Keys

  function HexDigit(n: nat): char
    requires n < 16
  {
    "0123456789abcdef"[n]
  }

  function HexDigits(bs: seq<byte>): (s: string)
    ensures |s| == 2 * |bs|
  {
    if bs == [] then "" else [HexDigit(bs[0] / 16), HexDigit(bs[0] % 16)] + HexDigits(bs[1..])
  }

  /** common.Hash.Hex(). */
  function Hex(w: Word): (s: string)
    ensures |s| == 66
  {
    "0x" + HexDigits(w)
  }

  lemma HexDigitInjective(m: nat, n: nat)
    requires m < 16 && n < 16 && HexDigit(m) == HexDigit(n)
    ensures m == n
  {
  }

  lemma {:induction false} HexDigitsInjective(x: seq<byte>, y: seq<byte>)
    requires HexDigits(x) == HexDigits(y)
    ensures x == y
  {
    if x != [] {
      var s, t := HexDigits(x), HexDigits(y);
      assert |x| == |y|;
      assert s[0] == t[0] && s[1] == t[1] && s[2..] == t[2..];
      HexDigitInjective(x[0] / 16, y[0] / 16);
      HexDigitInjective(x[0] % 16, y[0] % 16);
      assert s[2..] == HexDigits(x[1..]) && t[2..] == HexDigits(y[1..]);
      HexDigitsInjective(x[1..], y[1..]);
    }
  }

  predicate IsHexDigit(ch: char, n: nat) {
    if n < 10 then ch as int == '0' as int + n else ch as int == 'a' as int + n - 10
  }

  /** Two lower-case digits for each byte, the high one first, behind "0x". */
  lemma {:induction false} HexReads(w: seq<byte>, i: nat)
    requires i < |w|
    ensures IsHexDigit(HexDigits(w)[2 * i], w[i] / 16) && IsHexDigit(HexDigits(w)[2 * i + 1], w[i] % 16)
  {
    if i > 0 {
      HexReads(w[1..], i - 1);
    } else {
      HexDigitIs(w[0] / 16);
      HexDigitIs(w[0] % 16);
    }
  }

  lemma HexDigitIs(n: nat)
    requires n < 16
    ensures IsHexDigit(HexDigit(n), n)
  {
  }

  lemma HexIs(w: Word, i: nat)
    requires i < 32
    ensures Hex(w)[..2] == "0x"
    ensures IsHexDigit(Hex(w)[2 + 2 * i], w[i] / 16) && IsHexDigit(Hex(w)[3 + 2 * i], w[i] % 16)
  {
    HexReads(w, i);
  }

  function Key(chain: string, consentId: string): string {
    "consent:" + chain + ":" + consentId
  }

  /** The cache key tells chain and consent apart, even if a chain name contains colons, because ids have one length.
      */
  lemma KeyInjective(chain1: string, id1: Word, chain2: string, id2: Word)
    requires Key(chain1, Hex(id1)) == Key(chain2, Hex(id2))
    ensures chain1 == chain2 && id1 == id2
  {
    var k1, k2 := Key(chain1, Hex(id1)), Key(chain2, Hex(id2));
    assert |chain1| == |chain2|;
    assert chain1 == k1[8..8 + |chain1|] == k2[8..8 + |chain2|] == chain2;
    assert Hex(id1) == k1[9 + |chain1|..] == k2[9 + |chain2|..] == Hex(id2);
    assert HexDigits(id1) == Hex(id1)[2..] && HexDigits(id2) == Hex(id2)[2..];
    HexDigitsInjective(id1, id2);
  }

  // Handlers

  datatype Event = Registered(id: Word, fields: EventData.Fields) | Revoked(id: Word) | Ignored | Fatal

  /** Which handler a log reaches, whether its data is long enough, and what it says; Fatal where the handler panics.
      */
  function EventOf(cfg: Config, log: Log): Event {
    if log.topics == [] then Ignored
    else if log.topics[0] == cfg.registered then
      if |log.data| < 128 then Ignored
      else
        match EventData.Decode(log.data)
        case None => Fatal
        case Some(fields) => Registered(log.data[..WORD], fields)
    else if log.topics[0] == cfg.revoked then
      if |log.data| < 32 then Ignored else Revoked(log.data[..WORD])
    else Ignored
  }

  function Matching(points: map<nat, Point>, consentId: string): set<nat> {
    set i | i in points && points[i].consentId == consentId
  }

  /** UpdateConsentRevoked sets the flag of the matching points that are on the first page. */
  function Flagged(cfg: Config, points: map<nat, Point>, consentId: string): map<nat, Point> {
    var page := cfg.page(Matching(points, consentId));
    map i | i in points :: if i in page then points[i].(revoked := true) else points[i]
  }

  function Process(cfg: Config, s: Store, d: Delivery): Store {
    if s.down then s
    else
      match EventOf(cfg, d.log)
      case Registered(id, fields) => s.(cache := s.cache[Key(d.chain, Hex(id)) := Entry(d.chain, fields, d.log.txHash)])
      case Revoked(id) => s.(cache := s.cache - {Key(d.chain, Hex(id))}, points := Flagged(cfg, s.points, Hex(id)))
      case Ignored => s
      case Fatal => s.(down := true)
  }

  function ProcessAll(cfg: Config, s: Store, ds: seq<Delivery>): Store {
    if ds == [] then s else Process(cfg, ProcessAll(cfg, s, ds[..|ds| - 1]), ds[|ds| - 1])
  }

  // What the logs of the contract do

  /** The document of a registration with the given contents. */
  predicate IsDocument(e: Entry, chain: string, parties: seq<Address>, scopes: seq<Word>, validFrom: nat,
                       validUntil: nat, txHash: Word)
  {
    && e.chain == chain && e.txHash == txHash
    && e.fields.parties == parties
    && |e.fields.scopes| == |scopes|
    && (forall i | 0 <= i < |scopes| :: e.fields.scopes[i] == AbiCodec.Bytes32ToString(scopes[i]))
    && e.fields.validFrom == validFrom % UINT64 && e.fields.validUntil == validUntil % UINT64
  }

  /** A registration, as the indexer expects it to be encoded, puts its document under the key of its chain and
      consent, and changes nothing else. */
  lemma RegistrationIsCached(cfg: Config, s: Store, chain: string, log: Log, id: Word, parties: seq<Address>,
                             scopes: seq<Word>, validFrom: nat, validUntil: nat, key: string)
    requires !s.down && log.topics != [] && log.topics[0] == cfg.registered
    requires log.data == EventData.Encode(id, parties, scopes, validFrom, validUntil)
    requires |log.data| <= EventData.INT64_MAX && validFrom < Pow256(WORD) && validUntil < Pow256(WORD)
    requires key == "consent:" + chain + ":" + Hex(id)
    ensures var s' := Process(cfg, s, Delivery(chain, log));
            && s'.cache.Keys == s.cache.Keys + {key}
            && IsDocument(s'.cache[key], chain, parties, scopes, validFrom, validUntil, log.txHash)
            && (forall k | k in s.cache && k != key :: s'.cache[k] == s.cache[k])
            && s'.points == s.points && !s'.down
  {
    EventData.EventRoundTrip(id, parties, scopes, validFrom, validUntil, log.data);
  }

  /** A revocation removes the document of its chain and consent, raises the flags of the points of the consent that
      are on the first page, and changes nothing else. */
  lemma RevocationIsApplied(cfg: Config, s: Store, chain: string, log: Log, id: Word, key: string)
    requires !s.down && log.topics != [] && log.topics[0] == cfg.revoked != cfg.registered
    requires |log.data| >= 32 && log.data[..32] == id && key == "consent:" + chain + ":" + Hex(id)
    ensures var s' := Process(cfg, s, Delivery(chain, log));
            var page := cfg.page(set i | i in s.points && s.points[i].consentId == Hex(id));
            && s'.cache.Keys == s.cache.Keys - {key}
            && (forall k | k in s'.cache :: s'.cache[k] == s.cache[k])
            && s'.points.Keys == s.points.Keys
            && (forall i | i in s.points ::
                  && s'.points[i].consentId == s.points[i].consentId
                  && s'.points[i].revoked == (s.points[i].revoked || i in page))
            && !s'.down
  {
    assert Matching(s.points, Hex(id)) == set i | i in s.points && s.points[i].consentId == Hex(id);
  }

  /** Logs without topics, with another first topic, or with too little data change nothing. */
  lemma OtherLogsAreIgnored(cfg: Config, s: Store, d: Delivery)
    requires || d.log.topics == []
             || d.log.topics[0] !in {cfg.registered, cfg.revoked}
             || (d.log.topics[0] == cfg.registered && |d.log.data| < 128)
             || (d.log.topics[0] == cfg.revoked != cfg.registered && |d.log.data| < 32)
    ensures Process(cfg, s, d) == s
  {
  }

  /** A registration whose list of parties is announced beyond the largest int64 stops the indexer for good; what has
      been stored stays. */
  lemma PanicStops(cfg: Config, s: Store, d: Delivery, ds: seq<Delivery>)
    requires !s.down && d.log.topics != [] && d.log.topics[0] == cfg.registered
    requires 128 <= |d.log.data| <= EventData.INT64_MAX
    requires FromBigEndian(d.log.data[32..64]) % UINT64 + 32 > 0x7fff_ffff_ffff_ffff
    ensures ProcessAll(cfg, s, [d] + ds) == s.(down := true)
  {
    EventData.ListReads(EventData.Party, d.log.data, FromBigEndian(d.log.data[32..64]) % UINT64);
    StaysDown(cfg, s, d, ds);
  }

  lemma {:induction false} StaysDown(cfg: Config, s: Store, d: Delivery, ds: seq<Delivery>)
    requires Process(cfg, s, d) == s.(down := true)
    ensures ProcessAll(cfg, s, [d] + ds) == s.(down := true)
  {
    var all := [d] + ds;
    if ds == [] {
      assert all[..0] == [] && all == [d];
    } else {
      assert all[..|all| - 1] == [d] + ds[..|ds| - 1];
      StaysDown(cfg, s, d, ds[..|ds| - 1]);
    }
  }

  /** The handler, one log at a time under its mutex. */
  class EventHandler {
    const cfg: Config
    var cache: map<string, Entry>
    var points: map<nat, Point>
    ghost var down: bool

    ghost function View(): Store
      reads this
    {
      Store(cache, points, down)
    }

    constructor (cfg: Config)
      ensures this.cfg == cfg && View() == Store(map[], map[], false)
    {
      this.cfg, cache, points, down := cfg, map[], map[], false;
    }

    /** Returns whether the handler has panicked. */
    method ProcessEventLog(chain: string, log: Log) returns (panicked: bool)
      requires !down
      modifies this
      ensures View() == Process(cfg, old(View()), Delivery(chain, log)) && panicked == down
    {
      panicked := false;
      if |log.topics| == 0 {
        return;
      }
      var eventSig := log.topics[0];
      if eventSig == cfg.registered {
        panicked := HandleConsentRegistered(chain, log);
      } else if eventSig == cfg.revoked {
        HandleConsentRevoked(chain, log);
      }
    }

    method HandleConsentRegistered(chain: string, log: Log) returns (panicked: bool)
      requires !down && log.topics != [] && log.topics[0] == cfg.registered
      modifies this
      ensures View() == Process(cfg, old(View()), Delivery(chain, log)) && panicked == down
    {
      if |log.data| < 128 {
        return false;
      }
      var consentId := Hex(log.data[..WORD]);
      var parties := EventData.DecodeList(EventData.Party, log.data, EventData.Low64(log.data[32..64]));
      if parties.None? {
        down := true;
        return true;
      }
      var scopes := EventData.DecodeList(EventData.Scope, log.data, EventData.Low64(log.data[64..96]));
      if scopes.None? {
        down := true;
        return true;
      }
      var validFrom := EventData.Low64(log.data[96..128]);
      var validUntil := 0;
      if |log.data| >= 160 {
        validUntil := EventData.Low64(log.data[128..160]);
      }
      var fields := EventData.Fields(parties.value, scopes.value, validFrom, validUntil);
      cache := cache[Key(chain, consentId) := Entry(chain, fields, log.txHash)];
      return false;
    }

    method HandleConsentRevoked(chain: string, log: Log)
      requires !down && log.topics != [] && log.topics[0] == cfg.revoked != cfg.registered
      modifies this
      ensures View() == Process(cfg, old(View()), Delivery(chain, log)) && !down
    {
      if |log.data| < 32 {
        return;
      }
      var consentId := Hex(log.data[..WORD]);
      points := Flagged(cfg, points, consentId);
      cache := cache - {Key(chain, consentId)};
    }
  }

  // Interleavings

  /** The logs one chain delivers, in order. */
  function Of(chain: string, ds: seq<Delivery>): seq<Delivery> {
    if ds == [] then []
    else if ds[|ds| - 1].chain == chain then Of(chain, ds[..|ds| - 1]) + [ds[|ds| - 1]]
    else Of(chain, ds[..|ds| - 1])
  }

  /** Two merges of the same per-chain streams. */
  ghost predicate SameStreams(xs: seq<Delivery>, ys: seq<Delivery>) {
    forall chain :: Of(chain, xs) == Of(chain, ys)
  }

  /** The cache key a delivery writes or deletes. */
  function Touches(cfg: Config, d: Delivery): Option<string> {
    match EventOf(cfg, d.log)
    case Registered(id, _) => Some(Key(d.chain, Hex(id)))
    case Revoked(id) => Some(Key(d.chain, Hex(id)))
    case _ => None
  }

  /** What a delivery that touches a key leaves there. */
  function Effect(cfg: Config, d: Delivery): Option<Entry> {
    match EventOf(cfg, d.log)
    case Registered(_, fields) => Some(Entry(d.chain, fields, d.log.txHash))
    case _ => None
  }

  /** What the latest delivery that touches a key leaves there; `initial` if there is none. */
  function Latest(cfg: Config, key: string, ds: seq<Delivery>, initial: Option<Entry>): Option<Entry> {
    if ds == [] then initial
    else
      var d := ds[|ds| - 1];
      if Touches(cfg, d) == Some(key) then Effect(cfg, d) else Latest(cfg, key, ds[..|ds| - 1], initial)
  }

  lemma LatestAppend(cfg: Config, key: string, ds: seq<Delivery>, d: Delivery, initial: Option<Entry>)
    ensures Latest(cfg, key, ds + [d], initial)
            == if Touches(cfg, d) == Some(key) then Effect(cfg, d) else Latest(cfg, key, ds, initial)
  {
    assert (ds + [d])[..|ds|] == ds;
  }

  function Lookup(s: Store, key: string): Option<Entry> {
    if key in s.cache then Some(s.cache[key]) else None
  }

  predicate IsFatal(cfg: Config, d: Delivery) {
    EventOf(cfg, d.log).Fatal?
  }

  ghost predicate NonePanics(cfg: Config, ds: seq<Delivery>) {
    forall d | d in ds :: !IsFatal(cfg, d)
  }

  /** The deliveries before the first that makes its handler panic. */
  function Served(cfg: Config, ds: seq<Delivery>): (served: seq<Delivery>)
    ensures served <= ds && NonePanics(cfg, served)
  {
    if ds == [] then []
    else
      var n := |ds| - 1;
      var before := Served(cfg, ds[..n]);
      if |before| < n || IsFatal(cfg, ds[n]) then before else ds
  }

  lemma {:induction false} ServedAll(cfg: Config, ds: seq<Delivery>)
    ensures Served(cfg, ds) == ds <==> NonePanics(cfg, ds)
  {
    if ds != [] {
      var n := |ds| - 1;
      ServedAll(cfg, ds[..n]);
      assert ds == ds[..n] + [ds[n]];
    }
  }

  lemma {:induction false} StopsAtPanic(cfg: Config, s: Store, ds: seq<Delivery>)
    requires !s.down
    ensures var s' := ProcessAll(cfg, s, ds);
            && s' == ProcessAll(cfg, s, Served(cfg, ds)).(down := s'.down)
            && (s'.down <==> Served(cfg, ds) != ds)
  {
    if ds != [] {
      StopsAtPanic(cfg, s, ds[..|ds| - 1]);
    }
  }

  /** The cache holds, under each key, the effect of the latest event about it, up to the first panic. */
  lemma CacheIsLatest(cfg: Config, s: Store, ds: seq<Delivery>, key: string)
    requires !s.down
    ensures Lookup(ProcessAll(cfg, s, ds), key) == Latest(cfg, key, Served(cfg, ds), Lookup(s, key))
  {
    StopsAtPanic(cfg, s, ds);
    LatestOfServed(cfg, s, Served(cfg, ds), key);
  }

  lemma {:induction false} LatestOfServed(cfg: Config, s: Store, ds: seq<Delivery>, key: string)
    requires !s.down && NonePanics(cfg, ds)
    ensures Lookup(ProcessAll(cfg, s, ds), key) == Latest(cfg, key, ds, Lookup(s, key))
    ensures !ProcessAll(cfg, s, ds).down
  {
    if ds != [] {
      assert ds[|ds| - 1] in ds && forall d | d in ds[..|ds| - 1] :: d in ds;
      LatestOfServed(cfg, s, ds[..|ds| - 1], key);
    }
  }

  ghost predicate OnlyFrom(cfg: Config, key: string, chain: string, ds: seq<Delivery>) {
    forall d | d in ds :: Touches(cfg, d) == Some(key) ==> d.chain == chain
  }

  lemma LatestOfChainStep(cfg: Config, key: string, chain: string, ds: seq<Delivery>, d: Delivery,
                          initial: Option<Entry>)
    requires Touches(cfg, d) == Some(key) ==> d.chain == chain
    requires Latest(cfg, key, ds, initial) == Latest(cfg, key, Of(chain, ds), initial)
    ensures Latest(cfg, key, ds + [d], initial) == Latest(cfg, key, Of(chain, ds + [d]), initial)
  {
    assert (ds + [d])[..|ds|] == ds;
    LatestAppend(cfg, key, ds, d, initial);
    LatestAppend(cfg, key, Of(chain, ds), d, initial);
  }

  /** Only the stream of its own chain decides about a key. */
  lemma {:induction false} LatestOfChain(cfg: Config, key: string, chain: string, ds: seq<Delivery>,
                                         initial: Option<Entry>)
    requires OnlyFrom(cfg, key, chain, ds)
    ensures Latest(cfg, key, ds, initial) == Latest(cfg, key, Of(chain, ds), initial)
  {
    if ds != [] {
      var n := |ds| - 1;
      assert ds[n] in ds && forall d | d in ds[..n] :: d in ds;
      LatestOfChain(cfg, key, chain, ds[..n], initial);
      assert ds == ds[..n] + [ds[n]];
      LatestOfChainStep(cfg, key, chain, ds[..n], ds[n], initial);
    }
  }

  lemma OneChainPerKey(cfg: Config, key: string, d: Delivery, ds: seq<Delivery>)
    requires Touches(cfg, d) == Some(key)
    ensures OnlyFrom(cfg, key, d.chain, ds)
  {
    forall e | e in ds && Touches(cfg, e) == Some(key) ensures e.chain == d.chain {
      KeyInjective(e.chain, EventOf(cfg, e.log).id, d.chain, EventOf(cfg, d.log).id);
    }
  }

  lemma {:induction false} LatestUntouched(cfg: Config, key: string, ds: seq<Delivery>, initial: Option<Entry>)
    requires forall d | d in ds :: Touches(cfg, d) != Some(key)
    ensures Latest(cfg, key, ds, initial) == initial
  {
    if ds != [] {
      assert ds[|ds| - 1] in ds && forall d | d in ds[..|ds| - 1] :: d in ds;
      LatestUntouched(cfg, key, ds[..|ds| - 1], initial);
    }
  }

  lemma {:induction false} InStream(ds: seq<Delivery>, d: Delivery)
    ensures d in ds <==> d in Of(d.chain, ds)
  {
    if ds != [] {
      var n := |ds| - 1;
      assert ds == ds[..n] + [ds[n]];
      InStream(ds[..n], d);
    }
  }

  lemma SameDeliveries(xs: seq<Delivery>, ys: seq<Delivery>, d: Delivery)
    requires SameStreams(xs, ys)
    ensures d in xs <==> d in ys
  {
    InStream(xs, d);
    InStream(ys, d);
    assert Of(d.chain, xs) == Of(d.chain, ys);
  }

  lemma SameLookup(cfg: Config, s: Store, xs: seq<Delivery>, ys: seq<Delivery>, key: string)
    requires SameStreams(xs, ys) && !s.down && NonePanics(cfg, xs) && NonePanics(cfg, ys)
    ensures Lookup(ProcessAll(cfg, s, xs), key) == Lookup(ProcessAll(cfg, s, ys), key)
  {
    LatestOfServed(cfg, s, xs, key);
    LatestOfServed(cfg, s, ys, key);
    if d :| d in xs && Touches(cfg, d) == Some(key) {
      OneChainPerKey(cfg, key, d, xs);
      OneChainPerKey(cfg, key, d, ys);
      LatestOfChain(cfg, key, d.chain, xs, Lookup(s, key));
      LatestOfChain(cfg, key, d.chain, ys, Lookup(s, key));
      assert Of(d.chain, xs) == Of(d.chain, ys);
    } else {
      forall d | d in ys ensures Touches(cfg, d) != Some(key) {
        SameDeliveries(xs, ys, d);
      }
      LatestUntouched(cfg, key, xs, Lookup(s, key));
      LatestUntouched(cfg, key, ys, Lookup(s, key));
    }
  }

  predicate Revokes(cfg: Config, d: Delivery, consentId: string) {
    EventOf(cfg, d.log).Revoked? && Hex(EventOf(cfg, d.log).id) == consentId
  }

  ghost predicate AnyRevokes(cfg: Config, ds: seq<Delivery>, consentId: string) {
    exists d :: d in ds && Revokes(cfg, d, consentId)
  }

  lemma AnyRevokesMore(cfg: Config, ds: seq<Delivery>, d: Delivery, consentId: string)
    ensures AnyRevokes(cfg, ds + [d], consentId) <==> AnyRevokes(cfg, ds, consentId) || Revokes(cfg, d, consentId)
  {
    if Revokes(cfg, d, consentId) {
      assert d in ds + [d];
    }
    if e :| e in ds && Revokes(cfg, e, consentId) {
      assert e in ds + [d];
    }
  }

  /** The points that a revocation of a consent reaches. */
  function Page(cfg: Config, points: map<nat, Point>, consentId: string): set<nat> {
    cfg.page(Matching(points, consentId)) * Matching(points, consentId)
  }

  /** A flag is raised exactly by a revocation of its consent on some chain that is handled before any panic, if the
      point is on the page of its consent; it is never lowered. */
  lemma FlagsAreRevocations(cfg: Config, s: Store, ds: seq<Delivery>)
    requires !s.down && IsPaging(cfg.page)
    ensures FlagsAre(cfg, s, ProcessAll(cfg, s, ds), Served(cfg, ds))
  {
    StopsAtPanic(cfg, s, ds);
    FlagsOfServed(cfg, s, Served(cfg, ds));
  }

  ghost predicate FlagsAre(cfg: Config, s: Store, s': Store, ds: seq<Delivery>) {
    && s'.points.Keys == s.points.Keys
    && forall i | i in s.points ::
         && s'.points[i].consentId == s.points[i].consentId
         && (s'.points[i].revoked
             <==> || s.points[i].revoked
                  || (i in Page(cfg, s.points, s.points[i].consentId) && AnyRevokes(cfg, ds, s.points[i].consentId)))
  }

  lemma SamePages(cfg: Config, s: Store, s': Store, ds: seq<Delivery>, consentId: string)
    requires FlagsAre(cfg, s, s', ds)
    ensures Matching(s'.points, consentId) == Matching(s.points, consentId)
  {
  }

  lemma {:induction false} FlagsOfServed(cfg: Config, s: Store, ds: seq<Delivery>)
    requires !s.down && NonePanics(cfg, ds) && IsPaging(cfg.page)
    ensures FlagsAre(cfg, s, ProcessAll(cfg, s, ds), ds) && !ProcessAll(cfg, s, ds).down
  {
    if ds != [] {
      var n := |ds| - 1;
      assert ds == ds[..n] + [ds[n]];
      FlagsOfServed(cfg, s, ds[..n]);
      FlagsStep(cfg, s, ProcessAll(cfg, s, ds[..n]), ds[..n], ds[n]);
    }
  }

  lemma FlagsStep(cfg: Config, s: Store, s1: Store, ds: seq<Delivery>, d: Delivery)
    requires FlagsAre(cfg, s, s1, ds) && !s1.down && !IsFatal(cfg, d) && IsPaging(cfg.page)
    ensures FlagsAre(cfg, s, Process(cfg, s1, d), ds + [d]) && !Process(cfg, s1, d).down
  {
    forall id: string ensures AnyRevokes(cfg, ds + [d], id) <==> AnyRevokes(cfg, ds, id) || Revokes(cfg, d, id) {
      AnyRevokesMore(cfg, ds, d, id);
    }
    if EventOf(cfg, d.log).Revoked? {
      var id := Hex(EventOf(cfg, d.log).id);
      SamePages(cfg, s, s1, ds, id);
      assert cfg.page(Matching(s1.points, id)) <= Matching(s1.points, id);
    }
  }

  lemma SubsetOfSize(a: set<nat>, b: set<nat>)
    requires a <= b
    ensures |a| <= |b| && (|a| == |b| ==> a == b)
  {
    assert b == a + (b - a);
  }

  /** A revocation leaves all points of its consent flagged if and only if those that are not on the first page were
      flagged before; if none was, if and only if they fit one page. */
  lemma RevocationReachesAllIff(cfg: Config, s: Store, d: Delivery, all: set<nat>)
    requires !s.down && IsPaging(cfg.page) && EventOf(cfg, d.log).Revoked?
    requires all == Matching(s.points, Hex(EventOf(cfg, d.log).id))
    ensures (forall i | i in all :: Process(cfg, s, d).points[i].revoked)
            <==> (forall i | i in all && i !in cfg.page(all) :: s.points[i].revoked)
    ensures all <= cfg.page(all) <==> |all| <= PAGE_SIZE
  {
    var page := cfg.page(all);
    assert page <= all && |page| == Min(|all|, PAGE_SIZE);
    SubsetOfSize(page, all);
    assert all <= page <==> page == all;
  }

  lemma SameRevocations(cfg: Config, xs: seq<Delivery>, ys: seq<Delivery>, consentId: string)
    requires SameStreams(xs, ys)
    ensures AnyRevokes(cfg, xs, consentId) <==> AnyRevokes(cfg, ys, consentId)
  {
    forall d: Delivery ensures d in xs <==> d in ys {
      SameDeliveries(xs, ys, d);
    }
  }

  lemma SamePanics(cfg: Config, s: Store, xs: seq<Delivery>, ys: seq<Delivery>)
    requires SameStreams(xs, ys) && !s.down
    ensures ProcessAll(cfg, s, xs).down == ProcessAll(cfg, s, ys).down
    ensures !ProcessAll(cfg, s, xs).down <==> NonePanics(cfg, xs)
    ensures NonePanics(cfg, xs) <==> NonePanics(cfg, ys)
  {
    StopsAtPanic(cfg, s, xs);
    StopsAtPanic(cfg, s, ys);
    ServedAll(cfg, xs);
    ServedAll(cfg, ys);
    forall d: Delivery ensures d in xs <==> d in ys {
      SameDeliveries(xs, ys, d);
    }
  }

  lemma SameStores(cfg: Config, s: Store, xs: seq<Delivery>, ys: seq<Delivery>)
    requires SameStreams(xs, ys) && !s.down && NonePanics(cfg, xs) && NonePanics(cfg, ys) && IsPaging(cfg.page)
    ensures ProcessAll(cfg, s, xs) == ProcessAll(cfg, s, ys)
  {
    var a, b := ProcessAll(cfg, s, xs), ProcessAll(cfg, s, ys);
    forall key ensures Lookup(a, key) == Lookup(b, key) {
      SameLookup(cfg, s, xs, ys, key);
    }
    assert forall key :: (key in a.cache <==> Lookup(a, key).Some?) && (key in b.cache <==> Lookup(b, key).Some?);
    assert a.cache == b.cache;
    FlagsOfServed(cfg, s, xs);
    FlagsOfServed(cfg, s, ys);
    forall i | i in s.points ensures a.points[i] == b.points[i] {
      SameRevocations(cfg, xs, ys, s.points[i].consentId);
    }
  }

  /** Interleaving independence: however the logs of the chains are interleaved, either every interleaving meets a
      log that makes the handler panic, or the cache and the flags end the same. */
  lemma InterleavingIndependence(cfg: Config, s: Store, xs: seq<Delivery>, ys: seq<Delivery>)
    requires SameStreams(xs, ys) && !s.down && IsPaging(cfg.page)
    ensures var a, b := ProcessAll(cfg, s, xs), ProcessAll(cfg, s, ys);
            && (a.down <==> !NonePanics(cfg, xs)) && a.down == b.down
            && (NonePanics(cfg, xs) ==> a == b)
  {
    SamePanics(cfg, s, xs, ys);
    if !ProcessAll(cfg, s, xs).down {
      SameStores(cfg, s, xs, ys);
    }
  }

  lemma OfTwo(cfg: Config, s: Store, d: Delivery, e: Delivery)
    ensures ProcessAll(cfg, s, [d, e]) == Process(cfg, Process(cfg, s, d), e)
    ensures forall chain :: Of(chain, [d, e])
                            == (if d.chain == chain then [d] else []) + (if e.chain == chain then [e] else [])
  {
    assert [d, e][..1] == [d] && [d][..0] == [];
    assert ProcessAll(cfg, s, [d]) == Process(cfg, s, d);
    assert forall chain :: Of(chain, [d]) == if d.chain == chain then [d] else [];
  }

  lemma ProcessFatal(cfg: Config, s: Store, d: Delivery)
    requires IsFatal(cfg, d)
    ensures Process(cfg, s, d) == s.(down := true)
  {
  }

  lemma ProcessRegistered(cfg: Config, s: Store, d: Delivery)
    requires !s.down && EventOf(cfg, d.log).Registered?
    ensures Key(d.chain, Hex(EventOf(cfg, d.log).id)) in Process(cfg, s, d).cache
  {
  }

  /** With a panic the order does matter: a registration of another chain is cached only if it comes first. */
  lemma OrderMattersWithPanic(cfg: Config, s: Store, fatal: Delivery, d: Delivery, key: string)
    requires !s.down && IsFatal(cfg, fatal) && EventOf(cfg, d.log).Registered? && fatal.chain != d.chain
    requires key == Key(d.chain, Hex(EventOf(cfg, d.log).id)) && key !in s.cache
    ensures SameStreams([fatal, d], [d, fatal])
    ensures key !in ProcessAll(cfg, s, [fatal, d]).cache && key in ProcessAll(cfg, s, [d, fatal]).cache
  {
    OfTwo(cfg, s, fatal, d);
    OfTwo(cfg, s, d, fatal);
    ProcessFatal(cfg, s, fatal);
    ProcessFatal(cfg, Process(cfg, s, d), fatal);
    ProcessRegistered(cfg, s, d);
  }

  // One chain after another

  function Deliver(chain: string, logs: seq<Log>): (ds: seq<Delivery>)
    ensures |ds| == |logs|
  {
    seq(|logs|, i requires 0 <= i < |logs| => Delivery(chain, logs[i]))
  }

  function OneAfterAnother(chains: seq<string>, stream: string -> seq<Log>): seq<Delivery> {
    if chains == [] then []
    else OneAfterAnother(chains[..|chains| - 1], stream) + Deliver(chains[|chains| - 1], stream(chains[|chains| - 1]))
  }

  lemma {:induction false} OfDeliver(ds: seq<Delivery>, chain: string, logs: seq<Log>, of: string)
    ensures Of(of, ds + Deliver(chain, logs)) == Of(of, ds) + (if of == chain then Deliver(chain, logs) else [])
  {
    var all := ds + Deliver(chain, logs);
    if logs == [] {
      assert all == ds;
    } else {
      var n := |logs| - 1;
      assert all[..|all| - 1] == ds + Deliver(chain, logs[..n]);
      OfDeliver(ds, chain, logs[..n], of);
      assert Deliver(chain, logs) == Deliver(chain, logs[..n]) + [Delivery(chain, logs[n])];
    }
  }

  lemma {:induction false} OfOneAfterAnother(chains: seq<string>, stream: string -> seq<Log>, chain: string)
    requires Distinct(chains)
    ensures Of(chain, OneAfterAnother(chains, stream)) == if chain in chains then Deliver(chain, stream(chain)) else []
  {
    if chains != [] {
      var n := |chains| - 1;
      var before := chains[..n];
      assert chains == before + [chains[n]] && chains[n] !in before && Distinct(before);
      OfOneAfterAnother(before, stream, chain);
      OfDeliver(OneAfterAnother(before, stream), chains[n], stream(chains[n]), chain);
    }
  }

  /** Concurrent listeners end in the same stores as handling the chains one after another, unless a handler panics,
      which one then does in either order. */
  lemma ConcurrentIsSequential(cfg: Config, s: Store, chains: seq<string>, stream: string -> seq<Log>,
                               ds: seq<Delivery>)
    requires Distinct(chains) && !s.down && IsPaging(cfg.page)
    requires forall chain :: Of(chain, ds) == if chain in chains then Deliver(chain, stream(chain)) else []
    ensures var concurrent := ProcessAll(cfg, s, ds);
            var sequential := ProcessAll(cfg, s, OneAfterAnother(chains, stream));
            && (concurrent.down <==> !NonePanics(cfg, ds)) && concurrent.down == sequential.down
            && (NonePanics(cfg, ds) ==> concurrent == sequential)
  {
    var sequential := OneAfterAnother(chains, stream);
    forall chain ensures Of(chain, ds) == Of(chain, sequential) {
      OfOneAfterAnother(chains, stream, chain);
    }
    InterleavingIndependence(cfg, s, ds, sequential);
  }
}
