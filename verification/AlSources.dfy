/** The record OpenAL keeps for one source, and what it has to show for a DirectSound buffer
    (src/buffer.cpp:621-685). */
module AlSources {
  import opened Common
  import opened Params3D

  datatype Spatialize = Auto | On | Off

  /** The source parameters DSOAL sets. */
  datatype AlParams = AlParams(
    gain: real, pitch: real,
    position: Vec, velocity: Vec, direction: Vec, rolloff: real, spatialize: Spatialize,
    relative: bool, innerAngle: nat, outerAngle: nat, outerGain: real,
    referenceDistance: real, maxDistance: real,
    panEnabled: bool, pan: real)

  /** A source: its parameters and its play state.  Names are not modelled: a buffer's mSource is
      the record itself, or None for the name 0, since no two buffers ever share a name. */
  datatype AlSource = AlSource(params: AlParams, state: AlState)

  const ORIGIN := Vec(0.0, 0.0, 0.0)
  const AHEAD := Vec(0.0, 0.0, -1.0)

  /** A newly generated source, with OpenAL's defaults. */
  const FRESH_SOURCE := AlSource(
    AlParams(1.0, 1.0, ORIGIN, ORIGIN, ORIGIN, 1.0, Auto, false, 360, 360, 0.0, 1.0,
             340282346638528859811704183484516925440.0, false, 0.0),
    Initial)

  /** What the device offers, and the curve from hundredths of a decibel to gain. */
  datatype Env = Env(gainOf: int -> real, hasSpatialize: bool, hasPanning: bool, hasEfx: bool)

  /** OpenAL's z axis points the other way. */
  function Flip(v: Vec): Vec {
    Vec(v.x, v.y, -v.z)
  }

  /** At this pitch samples of that rate play at the frequency; 0 leaves the rate alone. */
  predicate PlaysAt(pitch: real, frequency: nat, rate: nat) {
    if frequency == 0 then pitch == 1.0 else pitch * rate as real == frequency as real
  }

  lemma PitchPlays(frequency: nat, rate: nat)
    requires rate > 0
    ensures frequency as real / rate as real * rate as real == frequency as real
  {
  }

  function PanGain(env: Env, pan: int): real {
    if pan <= 0 then env.gainOf(pan) - 1.0 else 1.0 - env.gainOf(-pan)
  }

  /** The five parameters that DS3DMODE_DISABLE replaces by a fixed image. */
  predicate ShowsPlacement(p: AlParams, env: Env, imm: Params, rolloff: real) {
    if imm.mode == Disable then
      && p.position == Vec(0.0, 0.0, -1.0) && p.velocity == Vec(0.0, 0.0, 0.0)
      && p.direction == Vec(0.0, 0.0, 0.0) && p.rolloff == 0.0
      && (env.hasSpatialize ==> p.spatialize == Off)
    else
      && p.position == Vec(imm.position.x, imm.position.y, -imm.position.z)
      && p.velocity == Vec(imm.velocity.x, imm.velocity.y, -imm.velocity.z)
      && p.direction == Vec(imm.orientation.x, imm.orientation.y, -imm.orientation.z)
      && p.rolloff == rolloff
      && (env.hasSpatialize ==> p.spatialize == On)
  }

  /** A 3D buffer's settings, as its source has to show them under the listener's rolloff. */
  predicate Shows3D(p: AlParams, env: Env, imm: Params, rolloff: real) {
    && ShowsPlacement(p, env, imm, rolloff)
    && p.relative == (imm.mode != Normal)
    && p.innerAngle == imm.insideAngle && p.outerAngle == imm.outsideAngle
    && p.outerGain == env.gainOf(imm.coneVolume)
    && p.referenceDistance == imm.minDistance && p.maxDistance == imm.maxDistance
  }

  /** A flat buffer's source stays at the listener and pans: panned to one side, it turns the other side
      down to the gain of so many hundredths of a decibel. */
  predicate ShowsFlat(p: AlParams, env: Env, pan: int) {
    && p.rolloff == 0.0 && p.relative
    && (env.hasPanning ==>
          p.panEnabled && if pan <= 0 then 1.0 + p.pan == env.gainOf(pan) else 1.0 - p.pan == env.gainOf(-pan))
  }
}
