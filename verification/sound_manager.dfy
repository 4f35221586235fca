/** The sound preference of the scrolling flappy game
    (3d-flappy-bird/src/systems/SoundManager.js). The preference is a boolean
    kept in the string store as "true" or "false"; playback is reduced to
    which clip would be started. */
module SoundManager {
  import opened Basics
  import opened Storage
  import opened FlappyConfig

  datatype Sounds = Sounds(enabled: bool, store: Store)

  /** The clips by name. */
  const Clips: map<string, string> := map[
    "flap" := "https://assets.mixkit.co/sfx/preview/mixkit-game-click-1114.mp3",
    "score" := "https://assets.mixkit.co/sfx/preview/mixkit-unlock-game-notification-253.wav",
    "hit" := "https://assets.mixkit.co/sfx/preview/mixkit-arcade-retro-game-over-213.wav"
  ]

  /** How `setItem` writes a boolean. */
  function BoolText(b: bool): string
  {
    if b then "true" else "false"
  }

  /** `#loadPreference`: enabled when nothing is stored, otherwise only the
      exact text "true" enables. */
  function LoadPreference(store: Store): (r: bool)
    ensures SoundEnabledKey !in store ==> r
    ensures SoundEnabledKey in store ==> (r <==> store[SoundEnabledKey] == "true")
  {
    if SoundEnabledKey !in store then true else store[SoundEnabledKey] == "true"
  }

  /** Reading back what was written gives the value written. */
  lemma LoadWrittenPreference(store: Store, b: bool)
    ensures LoadPreference(store[SoundEnabledKey := BoolText(b)]) == b
  {
  }

  /** The constructor. */
  function Create(store: Store): (r: Sounds)
    ensures r.enabled == LoadPreference(store) && r.store == store
  {
    Sounds(LoadPreference(store), store)
  }

  /** Flip the preference, persist it, and return the new value. The
      persisted text reads back as the new value. */
  function Toggle(s: Sounds): (r: (Sounds, bool))
    ensures r.1 == r.0.enabled == !s.enabled
    ensures LoadPreference(r.0.store) == r.0.enabled
    ensures r.0.store.Keys == s.store.Keys + {SoundEnabledKey}
    ensures forall k :: k in s.store && k != SoundEnabledKey ==> r.0.store[k] == s.store[k]
  {
    var enabled := !s.enabled;
    LoadWrittenPreference(s.store, enabled);
    (Sounds(enabled, s.store[SoundEnabledKey := BoolText(enabled)]), enabled)
  }

  /** Toggling twice restores the preference, and leaves the store holding
      its text. */
  lemma ToggleTwice(s: Sounds)
    ensures Toggle(Toggle(s).0).0.enabled == s.enabled
    ensures LoadPreference(Toggle(Toggle(s).0).0.store) == s.enabled
  {
  }

  /** The clip `play(name)` starts, if any: none while disabled, none for an
      unknown name. */
  function Play(s: Sounds, name: string): (r: Option<string>)
    ensures !s.enabled ==> r == None
    ensures name !in Clips ==> r == None
    ensures s.enabled && name in Clips ==> r == Some(Clips[name])
  {
    if !s.enabled then None
    else if name in Clips then Some(Clips[name])
    else None
  }

  /** Exactly the three game events have clips. */
  lemma KnownClips(name: string)
    ensures name in Clips <==> name == "flap" || name == "score" || name == "hit"
  {
  }
}
