/**
 * Sessions in Redis: a hash per token with a sliding time to live. What a token yields is compared with the
 * log of everything that was ever done to it.
 */
module Sessions {
  import opened Wrappers

  type Time = int

  const SESSION_TTL_SECONDS := 7 * 24 * 60 * 60

  // ----- The Redis commands used -----

  /** Tokens of before the migration to hashes are plain strings. */
  datatype Value = Hash(fields: map<string, string>) | Legacy(text: string)

  datatype Entry = Entry(value: Value, expires: Option<Time>)

  type Keys = map<string, Entry>

  datatype Reply = Nil | Bulk(text: string) | WrongType

  predicate Live(keys: Keys, key: string, now: Time) {
    key in keys && (keys[key].expires.None? || now < keys[key].expires.value)
  }

  function HGet(keys: Keys, key: string, field: string, now: Time): Reply {
    if !Live(keys, key, now) then Nil
    else match keys[key].value
      case Legacy(_) => WrongType
      case Hash(fields) => if field in fields then Bulk(fields[field]) else Nil
  }

  /** Fields are merged into a hash that exists; None stands for WRONGTYPE. */
  function HSet(keys: Keys, key: string, fields: map<string, string>, now: Time): Option<Keys> {
    if !Live(keys, key, now) then Some(keys[key := Entry(Hash(fields), None)])
    else match keys[key].value
      case Legacy(_) => None
      case Hash(present) => Some(keys[key := keys[key].(value := Hash(present + fields))])
  }

  function Expire(keys: Keys, key: string, ttl: int, now: Time): Keys {
    if Live(keys, key, now) then keys[key := keys[key].(expires := Some(now + ttl))] else keys
  }

  function Del(keys: Keys, key: string): Keys {
    keys - {key}
  }

  // ----- The log -----

  datatype Event =
    | Create(token: string, user: string, slug: Option<string>, at: Time)
    | Extend(token: string, at: Time)
    | Delete(token: string, at: Time)
    | Read(token: string, at: Time)

  function Mapping(user: string, slug: Option<string>): map<string, string> {
    if slug.Some? then map["user_id" := user, "org_slug" := slug.value] else map["user_id" := user]
  }

  function Apply(keys: Keys, e: Event): Keys {
    match e
    case Create(token, user, slug, at) =>
      // Both commands of the pipeline run, even when the first one fails.
      var written := HSet(keys, token, Mapping(user, slug), at);
      Expire(if written.Some? then written.value else keys, token, SESSION_TTL_SECONDS, at)
    case Extend(token, at) => Expire(keys, token, SESSION_TTL_SECONDS, at)
    case Delete(token, _) => Del(keys, token)
    case Read(token, at) => if HGet(keys, token, "user_id", at).WrongType? then Del(keys, token) else keys
  }

  function Run(keys: Keys, log: seq<Event>): Keys
    decreases |log|
  {
    if log == [] then keys else Apply(Run(keys, log[..|log| - 1]), log[|log| - 1])
  }

  predicate Ordered(log: seq<Event>) {
    forall i, j :: 0 <= i < j < |log| ==> log[i].at <= log[j].at
  }

  function UserOf(keys: Keys, token: string, now: Time): Option<string> {
    var reply := HGet(keys, token, "user_id", now);
    if reply.Bulk? then Some(reply.text) else None
  }

  // ----- The operations -----

  /** How Redis may fail a command: an error reply other than WRONGTYPE, or no reply. */
  datatype Trouble = Healthy | ErrorReply | Unreachable

  class SessionStore {
    var keys: Keys

    /** True stands for the exception: a live legacy key under the new token. */
    method CreateSession(token: string, user: string, slug: Option<string>, now: Time) returns (raised: bool)
      modifies this
      ensures keys == Apply(old(keys), Create(token, user, slug, now))
      ensures raised <==> Live(old(keys), token, now) && old(keys)[token].value.Legacy?
      ensures !raised ==> UserOf(keys, token, now) == Some(user)
    {
      var mapping := map["user_id" := user];
      if slug.Some? {
        mapping := mapping["org_slug" := slug.value];
      }
      var written := HSet(keys, token, mapping, now);
      if written.Some? {
        keys := written.value;
      }
      keys := Expire(keys, token, SESSION_TTL_SECONDS, now);
      return written.None?;
    }

    /** A legacy key reads as missing and is evicted; an unreachable Redis reads as missing; any other error
        reply is raised. */
    method GetField(token: string, field: string, now: Time, trouble: Trouble, evictionFails: bool)
      returns (r: Result<Option<string>, Trouble>)
      modifies this
      ensures r.Err? <==> trouble.ErrorReply?
      ensures r.Ok? ==>
                var reply := HGet(old(keys), token, field, now);
                r.value == if trouble.Healthy? && reply.Bulk? then Some(reply.text) else None
      ensures keys == if trouble.Healthy? && !evictionFails && HGet(old(keys), token, field, now).WrongType?
                      then old(keys) - {token} else old(keys)
    {
      match trouble
      case ErrorReply => return Err(trouble);
      case Unreachable => return Ok(None);
      case Healthy =>
        var reply := HGet(keys, token, field, now);
        match reply
        case WrongType =>
          if !evictionFails {
            keys := Del(keys, token);
          }
          return Ok(None);
        case Nil => return Ok(None);
        case Bulk(text) => return Ok(Some(text));
    }

    method GetSessionUserId(token: string, now: Time) returns (user: Option<string>)
      modifies this
      ensures user == UserOf(old(keys), token, now)
      ensures keys == Apply(old(keys), Read(token, now))
    {
      var r := GetField(token, "user_id", now, Healthy, false);
      user := r.value;
    }

    method GetSessionOrgSlug(token: string, now: Time) returns (slug: Option<string>)
      modifies this
      ensures slug == SlugOf(old(keys), token, now)
      ensures keys == Apply(old(keys), Read(token, now))
    {
      var r := GetField(token, "org_slug", now, Healthy, false);
      slug := r.value;
    }

    method ExtendSession(token: string, now: Time)
      modifies this
      ensures keys == Apply(old(keys), Extend(token, now))
    {
      keys := Expire(keys, token, SESSION_TTL_SECONDS, now);
    }

    method DeleteSession(token: string)
      modifies this
      ensures forall now :: keys == Apply(old(keys), Delete(token, now))
      ensures forall now :: UserOf(keys, token, now) == None
    {
      keys := Del(keys, token);
    }
  }

  // ----- What a token yields, from the log alone -----

  predicate Touches(e: Event, token: string) {
    e.token == token && (e.Create? || e.Extend?)
  }

  /** Event i created the session as it is: nothing created it again or deleted it later. */
  ghost predicate Created(log: seq<Event>, token: string, i: int) {
    && 0 <= i < |log| && log[i].Create? && log[i].token == token
    && forall j :: i < j < |log| && log[j].token == token ==> !log[j].Create? && !log[j].Delete?
  }

  /** Some touch, no earlier than event `from` and before position `to`, is less than the TTL ago. */
  ghost predicate TouchedWithin(log: seq<Event>, token: string, from: int, to: int, now: Time) {
    exists k :: 0 <= from <= k < to <= |log| && Touches(log[k], token) && now - log[k].at < SESSION_TTL_SECONDS
  }

  /** Since event i, every touch came less than the TTL after an earlier one. */
  ghost predicate Unbroken(log: seq<Event>, token: string, i: int) {
    forall l :: 0 <= i < l < |log| && Touches(log[l], token) ==> TouchedWithin(log, token, i, l, log[l].at)
  }

  /** And so does `now`. */
  ghost predicate NeverLapsed(log: seq<Event>, token: string, i: int, now: Time) {
    Unbroken(log, token, i) && TouchedWithin(log, token, i, |log|, now)
  }

  /** The session as of the end of the log, if it had not lapsed by the last touch, and when that was. */
  datatype Track = Gone | Alive(created: int, user: string, touched: Time)

  function Follow(log: seq<Event>, token: string): Track
    decreases |log|
  {
    if log == [] then Gone
    else
      var before, e := Follow(log[..|log| - 1], token), log[|log| - 1];
      if e.token != token || e.Read? then before
      else match e
        case Create(_, user, _, at) => Alive(|log| - 1, user, at)
        case Delete(_, _) => Gone
        case Extend(_, at) =>
          if before.Alive? && at - before.touched < SESSION_TTL_SECONDS then before.(touched := at) else Gone
  }

  /** The key of the token is what the track says; a gone session has no key that could still be read. */
  ghost predicate Shows(keys: Keys, token: string, track: Track, now: Time) {
    match track
    case Gone => !Live(keys, token, now)
    case Alive(_, user, touched) =>
      && token in keys && keys[token].expires == Some(touched + SESSION_TTL_SECONDS)
      && keys[token].value.Hash? && "user_id" in keys[token].value.fields
      && keys[token].value.fields["user_id"] == user
  }

  lemma ApplyShows(keys: Keys, e: Event, token: string, before: Track, after: Track, now: Time)
    requires Shows(keys, token, before, e.at) && e.at <= now
    requires after == if e.token != token || e.Read? then before
                      else match e
                        case Create(_, user, _, at) => Alive(if after.Alive? then after.created else 0, user, at)
                        case Delete(_, _) => Gone
                        case Extend(_, at) =>
                          if before.Alive? && at - before.touched < SESSION_TTL_SECONDS then before.(touched := at) else Gone
    ensures Shows(Apply(keys, e), token, after, now)
  {
  }

  lemma {:induction false} RunShows(keys: Keys, log: seq<Event>, token: string, now: Time)
    requires token !in keys && Ordered(log) && forall i :: 0 <= i < |log| ==> log[i].at <= now
    ensures Shows(Run(keys, log), token, Follow(log, token), now)
    decreases |log|
  {
    if log != [] {
      var e := log[|log| - 1];
      RunShows(keys, log[..|log| - 1], token, e.at);
      ApplyShows(Run(keys, log[..|log| - 1]), e, token, Follow(log[..|log| - 1], token), Follow(log, token), now);
    }
  }

  // ----- The track means what the log says -----

  ghost predicate LastTouch(log: seq<Event>, token: string, i: int, at: Time) {
    && (exists k :: 0 <= i <= k < |log| && Touches(log[k], token) && log[k].at == at)
    && (forall k :: 0 <= i <= k < |log| && Touches(log[k], token) ==> log[k].at <= at)
  }

  ghost predicate Means(log: seq<Event>, token: string, track: Track) {
    match track
    case Gone => forall i :: Created(log, token, i) ==> !Unbroken(log, token, i)
    case Alive(i, user, touched) =>
      Created(log, token, i) && log[i].user == user && Unbroken(log, token, i) && LastTouch(log, token, i, touched)
  }

  lemma WithinPrefix(log: seq<Event>, e: Event, token: string, from: int, to: int, now: Time)
    requires to <= |log|
    ensures TouchedWithin(log + [e], token, from, to, now) <==> TouchedWithin(log, token, from, to, now)
  {
    assert forall k :: 0 <= k < |log| ==> (log + [e])[k] == log[k];
  }

  lemma CreatedNext(log: seq<Event>, e: Event, token: string, i: int)
    requires i < |log|
    ensures Created(log + [e], token, i) <==>
              Created(log, token, i) && !(e.token == token && (e.Create? || e.Delete?))
  {
    var all := log + [e];
    assert all[|log|] == e;
    assert forall k :: 0 <= k < |log| ==> all[k] == log[k];
  }

  lemma UnbrokenNext(log: seq<Event>, e: Event, token: string, i: int)
    requires 0 <= i < |log|
    ensures Unbroken(log + [e], token, i) <==>
              Unbroken(log, token, i) && (Touches(e, token) ==> TouchedWithin(log, token, i, |log|, e.at))
  {
    var all := log + [e];
    assert all[|log|] == e;
    forall l | i < l <= |log|
      ensures TouchedWithin(all, token, i, l, all[l].at) <==> TouchedWithin(log, token, i, l, all[l].at)
    {
      WithinPrefix(log, e, token, i, l, all[l].at);
    }
    assert forall k :: 0 <= k < |log| ==> all[k] == log[k];
  }

  lemma LastTouchWithin(log: seq<Event>, token: string, i: int, touched: Time, now: Time)
    requires LastTouch(log, token, i, touched)
    ensures TouchedWithin(log, token, i, |log|, now) <==> now - touched < SESSION_TTL_SECONDS
  {
  }

  /** An event that is not about the session leaves its meaning alone. */
  lemma MeansSkips(log: seq<Event>, e: Event, token: string, track: Track)
    requires Means(log, token, track) && (e.token != token || e.Read?)
    ensures Means(log + [e], token, track)
  {
    var all := log + [e];
    assert all[|log|] == e && !Touches(e, token);
    assert forall k :: 0 <= k < |log| ==> all[k] == log[k];
    forall i | Created(all, token, i) ensures Created(log, token, i) {
      CreatedNext(log, e, token, i);
    }
    forall i | Created(log, token, i) ensures Created(all, token, i) && (Unbroken(all, token, i) <==> Unbroken(log, token, i)) {
      CreatedNext(log, e, token, i);
      UnbrokenNext(log, e, token, i);
    }
  }

  lemma MeansCreated(log: seq<Event>, e: Event, token: string)
    requires e.Create? && e.token == token
    ensures Means(log + [e], token, Alive(|log|, e.user, e.at))
  {
    assert (log + [e])[|log|] == e;
  }

  lemma MeansDeleted(log: seq<Event>, e: Event, token: string)
    requires e.Delete? && e.token == token
    ensures Means(log + [e], token, Gone)
  {
    assert (log + [e])[|log|] == e;
    forall i | i < |log| ensures !Created(log + [e], token, i) {
      CreatedNext(log, e, token, i);
    }
  }

  lemma MeansExtended(log: seq<Event>, e: Event, token: string, before: Track)
    requires Means(log, token, before) && Ordered(log + [e]) && e.Extend? && e.token == token
    ensures Means(log + [e], token,
                  if before.Alive? && e.at - before.touched < SESSION_TTL_SECONDS then before.(touched := e.at) else Gone)
  {
    var all := log + [e];
    assert all[|log|] == e && Touches(e, token);
    assert forall k :: 0 <= k < |log| ==> all[k] == log[k];
    if before.Alive? {
      LastTouchWithin(log, token, before.created, before.touched, e.at);
      CreatedNext(log, e, token, before.created);
      UnbrokenNext(log, e, token, before.created);
    }
    if before.Alive? && e.at - before.touched < SESSION_TTL_SECONDS {
      assert LastTouch(all, token, before.created, e.at);
    } else {
      forall i | Created(all, token, i) ensures !Unbroken(all, token, i) {
        CreatedNext(log, e, token, i);
        UnbrokenNext(log, e, token, i);
        if before.Alive? {
          assert i == before.created;
        }
      }
    }
  }

  lemma {:induction false} FollowMeans(log: seq<Event>, token: string)
    requires Ordered(log)
    ensures Means(log, token, Follow(log, token))
    decreases |log|
  {
    if log != [] {
      var pre, e := log[..|log| - 1], log[|log| - 1];
      assert log == pre + [e];
      FollowMeans(pre, token);
      if e.token != token || e.Read? {
        MeansSkips(pre, e, token, Follow(pre, token));
      } else {
        match e
        case Create(_, _, _, _) => MeansCreated(pre, e, token);
        case Delete(_, _) => MeansDeleted(pre, e, token);
        case Extend(_, _) => MeansExtended(pre, e, token, Follow(pre, token));
      }
    }
  }

  // ----- Main results -----

  predicate InTime(track: Track, user: string, now: Time) {
    track.Alive? && track.user == user && now - track.touched < SESSION_TTL_SECONDS
  }

  lemma TrackIsRead(keys: Keys, token: string, track: Track, user: string, now: Time)
    requires Shows(keys, token, track, now)
    ensures UserOf(keys, token, now) == Some(user) <==> InTime(track, user, now)
  {
  }

  ghost predicate Valid(log: seq<Event>, token: string, user: string, i: int, now: Time) {
    Created(log, token, i) && log[i].user == user && NeverLapsed(log, token, i, now)
  }

  lemma TrackIsLogged(log: seq<Event>, token: string, track: Track, user: string, now: Time)
    requires Means(log, token, track)
    ensures InTime(track, user, now) <==> exists i :: Valid(log, token, user, i, now)
  {
    if track.Alive? {
      LastTouchWithin(log, token, track.created, track.touched, now);
      assert InTime(track, user, now) <==> Valid(log, token, user, track.created, now);
      assert forall i :: Created(log, token, i) ==> i == track.created;
    }
  }

  /** A token yields a user exactly when it was created for that user, not deleted or created again since, and
      every gap between touches up to now is less than the TTL. */
  lemma YieldsExactlyWhen(keys: Keys, log: seq<Event>, token: string, user: string, now: Time)
    requires token !in keys && Ordered(log) && forall i :: 0 <= i < |log| ==> log[i].at <= now
    ensures UserOf(Run(keys, log), token, now) == Some(user) <==> exists i :: Valid(log, token, user, i, now)
  {
    RunShows(keys, log, token, now);
    FollowMeans(log, token);
    TrackIsRead(Run(keys, log), token, Follow(log, token), user, now);
    TrackIsLogged(log, token, Follow(log, token), user, now);
  }

  /** A new session lasts seven days from its creation, and seven days from an extension in time. */
  lemma SessionsLastAWeek(keys: Keys, token: string, user: string, slug: Option<string>, at: Time, extended: Time, now: Time)
    requires token !in keys && at <= extended <= now
    ensures var created := Apply(keys, Create(token, user, slug, at));
      && UserOf(created, token, now) == (if now < at + 604800 then Some(user) else None)
      && UserOf(Apply(created, Extend(token, extended)), token, now)
         == if extended < at + 604800 && now < extended + 604800 then Some(user) else None
  {
  }

  /** Creating a session over a live legacy key fails but still sets that key's time to live. */
  lemma CreatedOverLegacy(keys: Keys, token: string, user: string, slug: Option<string>, at: Time)
    requires Live(keys, token, at) && keys[token].value.Legacy?
    ensures Apply(keys, Create(token, user, slug, at)) == keys[token := Entry(keys[token].value, Some(at + 604800))]
  {
  }

  /** A token created anew while it is alive takes the new user, and keeps the old slug if none is given. */
  lemma RecreatedKeepsSlug(keys: Keys, token: string, user: string, slug: Option<string>, again: string, at: Time, now: Time)
    requires token !in keys && at <= now < at + 604800
    ensures var keys' := Apply(Apply(keys, Create(token, user, slug, at)), Create(token, again, None, now));
      UserOf(keys', token, now) == Some(again) && SlugOf(keys', token, now) == slug
  {
  }

  ghost predicate CreatedOnlyAt(log: seq<Event>, token: string, i: int) {
    forall j :: 0 <= j < |log| && log[j].Create? && log[j].token == token ==> j == i
  }

  /** A token that is drawn once keeps the fields it was created with. */
  lemma {:induction false} FieldsStay(keys: Keys, log: seq<Event>, token: string, i: int)
    requires token !in keys && CreatedOnlyAt(log, token, i)
    ensures token in Run(keys, log) ==>
              && 0 <= i < |log| && log[i].Create? && log[i].token == token
              && Run(keys, log)[token].value == Hash(Mapping(log[i].user, log[i].slug))
    decreases |log|
  {
    if log != [] {
      var pre := log[..|log| - 1];
      assert forall j :: 0 <= j < |pre| ==> pre[j] == log[j];
      FieldsStay(keys, pre, token, i);
    }
  }

  function SlugOf(keys: Keys, token: string, now: Time): Option<string> {
    var reply := HGet(keys, token, "org_slug", now);
    if reply.Bulk? then Some(reply.text) else None
  }

  /** A token that is drawn once yields the slug it was created with, as long as it yields its user. */
  lemma SlugExactlyWhen(keys: Keys, log: seq<Event>, token: string, i: int, now: Time)
    requires token !in keys && Ordered(log) && CreatedOnlyAt(log, token, i)
    requires 0 <= i < |log| && log[i].Create? && log[i].token == token
    requires forall j :: 0 <= j < |log| ==> log[j].at <= now
    ensures SlugOf(Run(keys, log), token, now)
         == if Created(log, token, i) && NeverLapsed(log, token, i, now) then log[i].slug else None
  {
    FieldsStay(keys, log, token, i);
    YieldsExactlyWhen(keys, log, token, log[i].user, now);
    assert forall j :: Created(log, token, j) ==> j == i;
    assert Valid(log, token, log[i].user, i, now) <==> Created(log, token, i) && NeverLapsed(log, token, i, now);
  }

  /** A session that has lapsed stays lapsed, however often it is extended. */
  lemma {:induction false} LapsedStaysLapsed(keys: Keys, more: seq<Event>, token: string, since: Time, now: Time)
    requires !Live(keys, token, since) && since <= now && Ordered(more)
    requires forall i :: 0 <= i < |more| ==> since <= more[i].at <= now && !(more[i].Create? && more[i].token == token)
    ensures UserOf(Run(keys, more), token, now) == None && !Live(Run(keys, more), token, now)
    decreases |more|
  {
    if more != [] {
      LapsedStaysLapsed(keys, more[..|more| - 1], token, since, more[|more| - 1].at);
    }
  }

  ghost predicate LegacyOrDead(keys: Keys, token: string, now: Time) {
    Live(keys, token, now) ==> keys[token].value.Legacy?
  }

  /** A legacy key never yields a user, unless its token is created anew, and once it was read it is gone. */
  lemma {:induction false} LegacyNeverYields(keys: Keys, log: seq<Event>, token: string, from: Time, now: Time)
    requires LegacyOrDead(keys, token, from) && from <= now && Ordered(log)
    requires forall i :: 0 <= i < |log| ==> from <= log[i].at <= now && !(log[i].Create? && log[i].token == token)
    ensures UserOf(Run(keys, log), token, now) == None && LegacyOrDead(Run(keys, log), token, now)
    ensures (exists i :: 0 <= i < |log| && log[i].Read? && log[i].token == token) ==> !Live(Run(keys, log), token, now)
    decreases |log|
  {
    if log != [] {
      LegacyNeverYields(keys, log[..|log| - 1], token, from, log[|log| - 1].at);
    }
  }
}
