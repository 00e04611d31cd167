/**
 * PrefsRepository: the app's settings kept in one flat key/value preference
 * store. Reading fills absent keys with defaults; save writes the six
 * settings keys; setLatestVideo writes only the latest-video key.
 */
module Prefs {
  import opened Wrappers

  /** The seven preference keys the repository declares. */
  datatype Key = Cast | Bg | Aspect | Duration | GenTime | ApplyTime | LatestVideoPath

  /** The key's name in the preference file. */
  function KeyName(k: Key): string {
    match k
    case Cast => "cast"
    case Bg => "bg"
    case Aspect => "aspect"
    case Duration => "duration"
    case GenTime => "gen_time"
    case ApplyTime => "apply_time"
    case LatestVideoPath => "latest_video_path"
  }

  /** Stored values: "duration" is an Int key, every other key a String key. */
  datatype PrefValue = Str(s: string) | Int(i: int)

  type Store = map<Key, PrefValue>

  /** Each stored value has the type its key was declared with. */
  predicate WellTyped(p: Store) {
    forall k | k in p :: (k == Duration <==> p[k].Int?)
  }

  /** The keys save writes; LatestVideoPath is not one of them. */
  const SettingsKeys: set<Key> := {Cast, Bg, Aspect, Duration, GenTime, ApplyTime}

  const DefaultCast: string := "a cute small standing Pomeranian in a blue shirt"
  const DefaultBackground: string := "the Arc de Triomphe in Paris"
  const DefaultAspect: string := "9:16"
  const DefaultDurationSec: int := 8
  const DefaultGenTime: string := "11:29"
  const DefaultApplyTime: string := "03:30"

  /** The settings record read from the store. */
  datatype UserPrefs = UserPrefs(
    cast: string,
    background: string,
    aspect: string,
    durationSec: int,
    genTime: string,
    applyTime: string,
    latestVideoPath: Option<string>)

  /** A string key's value, or its default when the key is absent. */
  function StrOr(p: Store, k: Key, default: string): string
    requires WellTyped(p) && k != Duration
  {
    if k in p then p[k].s else default
  }

  /** The value a settings record holds for a key, in its stored form (none for an unset latest path). */
  function Field(u: UserPrefs, k: Key): Option<PrefValue> {
    match k
    case Cast => Some(Str(u.cast))
    case Bg => Some(Str(u.background))
    case Aspect => Some(Str(u.aspect))
    case Duration => Some(Int(u.durationSec))
    case GenTime => Some(Str(u.genTime))
    case ApplyTime => Some(Str(u.applyTime))
    case LatestVideoPath => if u.latestVideoPath.Some? then Some(Str(u.latestVideoPath.value)) else None
  }

  /** The mapping behind `flow`: each setting from its key, or its default; no default for the latest path. */
  function Read(p: Store): (u: UserPrefs)
    requires WellTyped(p)
    ensures forall k | k in p :: Field(u, k) == Some(p[k])
    ensures u.latestVideoPath.None? <==> LatestVideoPath !in p
  {
    UserPrefs(
      StrOr(p, Cast, DefaultCast),
      StrOr(p, Bg, DefaultBackground),
      StrOr(p, Aspect, DefaultAspect),
      if Duration in p then p[Duration].i else DefaultDurationSec,
      StrOr(p, GenTime, DefaultGenTime),
      StrOr(p, ApplyTime, DefaultApplyTime),
      if LatestVideoPath in p then Some(p[LatestVideoPath].s) else None)
  }

  /** The store after save(u): the six settings keys hold u's values; every other key is as before. */
  function Saved(p: Store, u: UserPrefs): (q: Store)
    requires WellTyped(p)
    ensures WellTyped(q)
    ensures q.Keys == p.Keys + SettingsKeys
    ensures Read(q) == u.(latestVideoPath := Read(p).latestVideoPath)
    ensures LatestVideoPath in q <==> LatestVideoPath in p
    ensures LatestVideoPath in p ==> q[LatestVideoPath] == p[LatestVideoPath]
  {
    p[Cast := Str(u.cast)]
     [Bg := Str(u.background)]
     [Aspect := Str(u.aspect)]
     [Duration := Int(u.durationSec)]
     [GenTime := Str(u.genTime)]
     [ApplyTime := Str(u.applyTime)]
  }

  /** The store after setLatestVideo(path): only the latest-video key changes. */
  function WithLatest(p: Store, path: string): (q: Store)
    requires WellTyped(p)
    ensures WellTyped(q)
    ensures q.Keys == p.Keys + {LatestVideoPath}
    ensures Read(q) == Read(p).(latestVideoPath := Some(path))
    ensures forall k | k in p && k != LatestVideoPath :: q[k] == p[k]
  {
    p[LatestVideoPath := Str(path)]
  }

  /** An empty store reads as the defaults, and with no latest video. */
  lemma EmptyReadsDefaults()
    ensures Read(map[]) == UserPrefs(DefaultCast, DefaultBackground, DefaultAspect, DefaultDurationSec,
                                     DefaultGenTime, DefaultApplyTime, None)
  {
  }

  /** In any store, an absent settings key reads as its default, and an absent latest path as none. */
  lemma AbsentKeysReadDefaults(p: Store)
    requires WellTyped(p)
    ensures Cast !in p ==> Read(p).cast == DefaultCast
    ensures Bg !in p ==> Read(p).background == DefaultBackground
    ensures Aspect !in p ==> Read(p).aspect == DefaultAspect
    ensures Duration !in p ==> Read(p).durationSec == DefaultDurationSec
    ensures GenTime !in p ==> Read(p).genTime == DefaultGenTime
    ensures ApplyTime !in p ==> Read(p).applyTime == DefaultApplyTime
    ensures Read(p).latestVideoPath.None? <==> LatestVideoPath !in p
  {
  }

  /** Saving the same settings twice leaves the store as saving them once. */
  lemma SaveIdempotent(p: Store, u: UserPrefs)
    requires WellTyped(p)
    ensures Saved(Saved(p, u), u) == Saved(p, u)
  {
  }

  /** Two updates of different keys can be done in either order. */
  lemma UpdatesCommute(m: Store, k1: Key, v1: PrefValue, k2: Key, v2: PrefValue)
    requires k1 != k2
    ensures m[k1 := v1][k2 := v2] == m[k2 := v2][k1 := v1]
  {
  }

  /** The two writers touch disjoint keys, so their order does not matter. */
  lemma SaveCommutesWithLatest(p: Store, u: UserPrefs, path: string)
    requires WellTyped(p)
    ensures Saved(WithLatest(p, path), u) == WithLatest(Saved(p, u), path)
  {
    var l := Str(path);
    var c, b, a, d, g, t := Str(u.cast), Str(u.background), Str(u.aspect),
                            Int(u.durationSec), Str(u.genTime), Str(u.applyTime);
    calc {
      Saved(WithLatest(p, path), u);
      p[LatestVideoPath := l][Cast := c][Bg := b][Aspect := a][Duration := d][GenTime := g][ApplyTime := t];
      { UpdatesCommute(p, LatestVideoPath, l, Cast, c); }
      p[Cast := c][LatestVideoPath := l][Bg := b][Aspect := a][Duration := d][GenTime := g][ApplyTime := t];
      { UpdatesCommute(p[Cast := c], LatestVideoPath, l, Bg, b); }
      p[Cast := c][Bg := b][LatestVideoPath := l][Aspect := a][Duration := d][GenTime := g][ApplyTime := t];
      { UpdatesCommute(p[Cast := c][Bg := b], LatestVideoPath, l, Aspect, a); }
      p[Cast := c][Bg := b][Aspect := a][LatestVideoPath := l][Duration := d][GenTime := g][ApplyTime := t];
      { UpdatesCommute(p[Cast := c][Bg := b][Aspect := a], LatestVideoPath, l, Duration, d); }
      p[Cast := c][Bg := b][Aspect := a][Duration := d][LatestVideoPath := l][GenTime := g][ApplyTime := t];
      { UpdatesCommute(p[Cast := c][Bg := b][Aspect := a][Duration := d], LatestVideoPath, l, GenTime, g); }
      p[Cast := c][Bg := b][Aspect := a][Duration := d][GenTime := g][LatestVideoPath := l][ApplyTime := t];
      { UpdatesCommute(p[Cast := c][Bg := b][Aspect := a][Duration := d][GenTime := g], LatestVideoPath, l, ApplyTime, t); }
      p[Cast := c][Bg := b][Aspect := a][Duration := d][GenTime := g][ApplyTime := t][LatestVideoPath := l];
      WithLatest(Saved(p, u), path);
    }
  }

  /** The repository object over the preference store. */
  class PrefsRepository {
    var store: Store

    ghost predicate Valid()
      reads this
    {
      WellTyped(store)
    }

    constructor (initial: Store)
      requires WellTyped(initial)
      ensures Valid() && store == initial
    {
      store := initial;
    }

    /** The current value of `flow` (its first emission). */
    function Flow(): UserPrefs
      reads this
      requires Valid()
    {
      Read(store)
    }

    /** save(u): one edit transaction writing the six settings keys. */
    method Save(u: UserPrefs)
      requires Valid()
      modifies this
      ensures Valid()
      ensures store == Saved(old(store), u)
      ensures Flow() == u.(latestVideoPath := old(Flow()).latestVideoPath)
    {
      store := store[Cast := Str(u.cast)];
      store := store[Bg := Str(u.background)];
      store := store[Aspect := Str(u.aspect)];
      store := store[Duration := Int(u.durationSec)];
      store := store[GenTime := Str(u.genTime)];
      store := store[ApplyTime := Str(u.applyTime)];
    }

    /** setLatestVideo(path): one edit transaction writing the latest-video key. */
    method SetLatestVideo(path: string)
      requires Valid()
      modifies this
      ensures Valid()
      ensures store == WithLatest(old(store), path)
      ensures Flow() == old(Flow()).(latestVideoPath := Some(path))
    {
      store := store[LatestVideoPath := Str(path)];
    }
  }
}
