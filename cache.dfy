/**
 * The read-path cache middleware over a key-value store with expiring entries. A GET
 * request whose URL has a live entry is answered from the store without running the
 * route handler; on a miss the handler runs and the body it sends is stored for
 * `duration` seconds. Every other method goes straight to the handler.
 *
 * JSON is kept symbolic: a `Text` is the serialization of a `Value`, and parsing a text
 * gives back the value it serializes.
 */
module Cache {
  import opened Common

  /** A JavaScript value a handler responds with: an object or array, or a string. */
  datatype Value = Data(body: string) | Str(text: Text)

  /** JSON text: `Serialized(v)` is `JSON.stringify(v)`. */
  datatype Text = Serialized(value: Value)

  function Stringify(v: Value): Text {
    Serialized(v)
  }

  function Parse(t: Text): Value {
    t.value
  }

  lemma ParseStringify(v: Value)
    ensures Parse(Stringify(v)) == v
  {
  }

  const KeyPrefix: string := "cache:"

  /** The store key of a request: the prefix followed by the original URL. */
  function CacheKey(url: string): (key: string)
    ensures |key| == |KeyPrefix| + |url| && key[..|KeyPrefix|] == KeyPrefix
  {
    KeyPrefix + url
  }

  /** Identical URLs share a key and different URLs get different keys. */
  lemma CacheKeyInjective(a: string, b: string)
    ensures CacheKey(a) == CacheKey(b) <==> a == b
  {
    if CacheKey(a) == CacheKey(b) {
      assert a == CacheKey(a)[|KeyPrefix|..];
      assert b == CacheKey(b)[|KeyPrefix|..];
    }
  }

  datatype Request = Request(verb: string, originalUrl: string)

  /** A stored text and the time (in seconds) at which the store drops it. */
  datatype Entry = Entry(text: Text, expiry: int)

  /**
   * What became of a request: `Passed` and `Filled` ran the handler, which answered
   * `status` with `sent` (`Filled` also stored the body, whatever the status); `Served`
   * answered from the store without running the handler, and `res.json` leaves the status
   * at its default 200; `Failed` handed the store's error to the error handler.
   */
  datatype Outcome = Passed(status: int, sent: Text) | Served(status: int, sent: Text) | Filled(status: int, sent: Text) | Failed

  const DefaultStatus: int := 200

  predicate HandlerRan(o: Outcome) {
    o.Passed? || o.Filled?
  }

  /** The body `res.json` sends on a hit: the parsed entry, serialized again. */
  function HitBody(stored: Text): Text {
    Stringify(Parse(stored))
  }

  /**
   * The entry the wrapped `send` stores, as written. `res.json` serializes the handler's
   * data and passes the resulting text to `send`, and the wrapper serializes that text a
   * second time.
   */
  function EntryAsWritten(sent: Text): Text {
    Stringify(Str(sent))
  }

  /** Served from an entry stored as written, a client gets a JSON string instead of the body first sent. */
  lemma AsWrittenHitDiffers(v: Value)
    ensures HitBody(EntryAsWritten(Stringify(v))) != Stringify(v)
    ensures Parse(HitBody(EntryAsWritten(Stringify(v)))) == Str(Stringify(v))
  {
    NotWrappedInItself(v);
  }

  /** No value is the string holding its own serialization. */
  lemma {:induction false} NotWrappedInItself(v: Value)
    ensures Str(Stringify(v)) != v
  {
    match v
    case Data(_) =>
    case Str(t) => NotWrappedInItself(t.value);
  }

  /** The entry the wrapped `send` should store: the text it was handed, unchanged. */
  function EntryCorrected(sent: Text): Text {
    sent
  }

  /** Served from a corrected entry, a client gets exactly the body first sent. */
  lemma CorrectedHitSame(v: Value)
    ensures HitBody(EntryCorrected(Stringify(v))) == Stringify(v)
  {
    ParseStringify(v);
  }

  /** The live entry under `key` at time `now`: the store drops an entry once its expiry is reached. */
  function Live(entries: map<string, Entry>, key: string, now: int): (hit: Option<Text>)
    ensures hit.Some? <==> key in entries && now < entries[key].expiry
    ensures hit.Some? ==> hit.value == entries[key].text
  {
    if key in entries && now < entries[key].expiry then Some(entries[key].text) else None
  }

  /**
   * `setex(key, duration, text)` at `now` followed by `get` at a time `t` no earlier: a hit
   * with exactly that text while `t < now + duration`, a miss from then on; every other
   * key reads as before.
   */
  lemma LiveAfterSetex(entries: map<string, Entry>, key: string, text: Text, now: int, duration: int, t: int, other: string)
    requires duration > 0 && now <= t && other != key
    ensures Live(entries[key := Entry(text, now + duration)], key, t) == if t < now + duration then Some(text) else None
    ensures Live(entries[key := Entry(text, now + duration)], other, t) == Live(entries, other, t)
  {
  }

  class CacheStore {
    var entries: map<string, Entry>
    /** Whether the store answers; while it is down every command fails. */
    var up: bool

    constructor (up: bool)
      ensures entries == map[] && this.up == up
    {
      entries := map[];
      this.up := up;
    }

    /**
     * Runs the middleware for one request at time `now`; `status` and `data` are what the
     * route handler responds with when it runs. The wrapped `send` stores every body it is
     * handed, error bodies included. A store that refuses the expiry (a duration that is
     * not positive) stores nothing, and the response is still sent.
     */
    method Handle(req: Request, now: int, duration: int, status: int, data: Value) returns (outcome: Outcome)
      modifies this
      ensures up == old(up)
      ensures req.verb != "GET" ==> outcome == Passed(status, Stringify(data)) && entries == old(entries)
      ensures req.verb == "GET" && !up ==> outcome == Failed && entries == old(entries)
      ensures req.verb == "GET" && up ==>
        var key := CacheKey(req.originalUrl);
        match Live(old(entries), key, now)
        case Some(stored) => outcome == Served(DefaultStatus, HitBody(stored)) && entries == old(entries)
        case None =>
          && outcome == Filled(status, Stringify(data))
          && entries == if duration > 0 then old(entries)[key := Entry(EntryCorrected(outcome.sent), now + duration)] else old(entries)
    {
      if req.verb != "GET" {
        return Passed(status, Stringify(data));
      }
      var key := CacheKey(req.originalUrl);
      if !up {
        return Failed;
      }
      var cached := Live(entries, key, now);
      if cached.Some? {
        return Served(DefaultStatus, HitBody(cached.value));
      }
      var sent := Stringify(data);
      if duration > 0 {
        entries := entries[key := Entry(EntryCorrected(sent), now + duration)];
      }
      outcome := Filled(status, sent);
    }
  }

  /**
   * A GET that misses and a second GET of the same URL before the entry expires: the
   * second is answered from the store, without running the handler, with the body the
   * first one sent, whatever the handler would answer by then, and with status 200 even
   * when the first answer was an error such as a 404.
   */
  method RepeatedGet(store: CacheStore, url: string, now: int, later: int, duration: int,
                     status: int, data: Value, status': int, data': Value)
    returns (first: Outcome, second: Outcome)
    requires store.up && Live(store.entries, CacheKey(url), now).None?
    requires duration > 0 && now <= later < now + duration
    modifies store
    ensures first == Filled(status, Stringify(data)) && HandlerRan(first)
    ensures second == Served(DefaultStatus, first.sent) && !HandlerRan(second)
  {
    first := store.Handle(Request("GET", url), now, duration, status, data);
    second := store.Handle(Request("GET", url), later, duration, status', data');
    CorrectedHitSame(data);
  }
}
