/**
 * The per-particle tween table, kept as data: a map from track name to track
 * definition, and the set of track names that have been started. Evaluating a
 * track over time (easing curves, interpolation) is not modelled.
 */
module Tweens {

  /** The easing curves a tween effect can name. */
  datatype EaseFunctionType = InOutSine | OutSine | InSine | InOutQuad | OutInQuad

  /** One animated property of a track: it goes from `start` to `end` under `ease`. */
  datatype TweenEffect = TweenEffect(property: string, start: real, end: real, ease: EaseFunctionType)

  /** A track definition: delay before it starts, how long it runs (ms), its effects. */
  datatype TweenData = TweenData(startDelay: real, duration: real, effects: seq<TweenEffect>)

  /** A particle's tween controller: its named tracks and the names started with `play`. */
  datatype TweenTable = TweenTable(tracks: map<string, TweenData>, playing: set<string>) {

    /** `tweens.add(name, data)`: stores or replaces the track under `name`. */
    function Add(name: string, data: TweenData): TweenTable {
      TweenTable(tracks[name := data], playing)
    }

    /** `tweens.play(name)`: records that the track was started. */
    function Play(name: string): TweenTable {
      TweenTable(tracks, playing + {name})
    }
  }

  const NO_TWEENS: TweenTable := TweenTable(map[], {})
}
