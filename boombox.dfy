/**
 * The tape player (BoomBox): a tape slot, a play switch and a volume control stepping
 * by 3 between -13 and 5. The handlers are modelled as transitions of a Deck value,
 * and the class BoomBox runs them in place on the component's fields. Audio playback,
 * popups and the device-link signal are foreign I/O: the audio stream a playback
 * returns is a parameter, and the rest is not modelled.
 */
module BoomBoxSystem {
  import opened Wrappers

  /** The volume a new player starts at, which is also the lowest. */
  const DefaultVolume: int := -13
  /** The loudest volume the player reaches. */
  const MaxVolume: int := 5
  /** One press of a volume button changes the volume by this much. */
  const VolumeStep: int := 3
  /** The sound played when the tape in the slot names no sound of its own. */
  const DefaultSoundPath: string := "Audio/_Metro14/BoomBox/Default/BelyjShum.ogg"
  /** The device-link port signalled on every button press, unless configured otherwise. */
  const DefaultPort: string := "Pressed"

  /** A handle to a playing audio stream. */
  type AudioStream = nat

  /** The item that went into the tape slot: whether it is a tape, and the sound its tape component names (if any). */
  datatype Cassette = Cassette(isTape: bool, soundPath: Option<string>)

  /** The component state the handlers read and write (the audio stream aside). */
  datatype Deck = Deck(inserted: bool, enabled: bool, volume: int, soundPath: string)

  /** The buttons the player's window offers, in the order the UI state carries them. */
  datatype UiState = UiState(canPlusVol: bool, canMinusVol: bool, canStop: bool, canStart: bool)

  /** A freshly created player: no tape, not playing, at the lowest volume, with the default sound. */
  function InitialDeck(): Deck
  {
    Deck(false, false, DefaultVolume, DefaultSoundPath)
  }

  /** The states a player can be in: playing only with a tape in, and the volume on the grid -13, -10, ..., 5. */
  predicate Consistent(d: Deck)
  {
    && (d.enabled ==> d.inserted)
    && DefaultVolume <= d.volume <= MaxVolume
    && (d.volume - DefaultVolume) % VolumeStep == 0
  }

  /** UpdateUserInterface's button flags for a state. */
  function Buttons(d: Deck): (ui: UiState)
    ensures ui.canStart <==> d.inserted && !d.enabled
    ensures ui.canStop <==> d.inserted && d.enabled
    ensures !(ui.canStart && ui.canStop)
    ensures ui.canPlusVol <==> d.volume < MaxVolume
    ensures ui.canMinusVol <==> d.volume > DefaultVolume
  {
    var canPlusVol := !(d.volume >= MaxVolume);
    var canMinusVol := !(d.volume <= DefaultVolume);
    if d.inserted then
      if d.enabled then UiState(canPlusVol, canMinusVol, true, false)
      else UiState(canPlusVol, canMinusVol, false, true)
    else UiState(canPlusVol, canMinusVol, false, false)
  }

  /** The sound path after a tape is inserted: the tape's own sound if it is a tape naming one, else the path kept so far. */
  function SoundPathAfter(current: string, slot: Option<Cassette>): (p: string)
    ensures slot.Some? && slot.value.isTape && slot.value.soundPath.Some? ==> p == slot.value.soundPath.value
    ensures !(slot.Some? && slot.value.isTape && slot.value.soundPath.Some?) ==> p == current
  {
    match slot
    case None => current
    case Some(c) => if !c.isTape || c.soundPath.None? then current else c.soundPath.value
  }

  /** OnItemInserted: the tape is in, and its sound (if it names one) becomes the player's. */
  function Insert(d: Deck, slot: Option<Cassette>): (r: Deck)
    ensures r.inserted && r.enabled == d.enabled && r.volume == d.volume
    ensures r.soundPath == SoundPathAfter(d.soundPath, slot)
  {
    d.(inserted := true, soundPath := SoundPathAfter(d.soundPath, slot))
  }

  /** OnItemRemoved: no tape, not playing. */
  function Remove(d: Deck): (r: Deck)
    ensures !r.inserted && !r.enabled
    ensures r.volume == d.volume && r.soundPath == d.soundPath
  {
    d.(inserted := false, enabled := false)
  }

  /** MinusVol: one step quieter, unless already at the lowest volume. */
  function VolumeDown(d: Deck): (r: Deck)
    ensures d.volume > DefaultVolume ==> r.volume == d.volume - VolumeStep
    ensures d.volume <= DefaultVolume ==> r == d
    ensures r.(volume := d.volume) == d
  {
    if d.volume <= DefaultVolume then d else d.(volume := d.volume - VolumeStep)
  }

  /** PlusVol: one step louder, unless already at the loudest volume. */
  function VolumeUp(d: Deck): (r: Deck)
    ensures d.volume < MaxVolume ==> r.volume == d.volume + VolumeStep
    ensures d.volume >= MaxVolume ==> r == d
    ensures r.(volume := d.volume) == d
  {
    if d.volume >= MaxVolume then d else d.(volume := d.volume + VolumeStep)
  }

  /** StartPlay: starts playing only with a tape in that is not already playing. */
  function Start(d: Deck): (r: Deck)
    ensures r.enabled <==> d.enabled || d.inserted
    ensures r.(enabled := d.enabled) == d
  {
    if d.inserted && !d.enabled then d.(enabled := true) else d
  }

  /** StopPlay: stops playing only with a tape in that is playing. */
  function Stop(d: Deck): (r: Deck)
    ensures r.enabled <==> d.enabled && !d.inserted
    ensures r.(enabled := d.enabled) == d
  {
    if d.inserted && d.enabled then d.(enabled := false) else d
  }

  /** A new player is in a consistent state, and every handler keeps it consistent. */
  lemma HandlersKeepConsistent(d: Deck, slot: Option<Cassette>)
    ensures Consistent(InitialDeck())
    ensures Consistent(d) ==>
              && Consistent(Insert(d, slot)) && Consistent(Remove(d))
              && Consistent(VolumeDown(d)) && Consistent(VolumeUp(d))
              && Consistent(Start(d)) && Consistent(Stop(d))
  {
    if Consistent(d) {
      assert (d.volume - VolumeStep - DefaultVolume) % VolumeStep == (d.volume - DefaultVolume) % VolumeStep;
      assert (d.volume + VolumeStep - DefaultVolume) % VolumeStep == (d.volume - DefaultVolume) % VolumeStep;
    }
  }

  /** Each button the window offers is exactly one whose handler would change the state. */
  lemma ButtonsOfferEffectiveActions(d: Deck)
    ensures Buttons(d).canStart <==> Start(d) != d
    ensures Buttons(d).canStop <==> Stop(d) != d
    ensures Buttons(d).canPlusVol <==> VolumeUp(d) != d
    ensures Buttons(d).canMinusVol <==> VolumeDown(d) != d
  {
  }

  /** Pressing start, stop or removing the tape twice is the same as doing it once. */
  lemma HandlersIdempotent(d: Deck)
    ensures Start(Start(d)) == Start(d)
    ensures Stop(Stop(d)) == Stop(d)
    ensures Remove(Remove(d)) == Remove(d)
  {
  }

  /** One step louder then one step quieter restores the state, and the other way round, away from the ends of the range. */
  lemma VolumeStepsInverse(d: Deck)
    requires Consistent(d)
    ensures d.volume < MaxVolume ==> VolumeDown(VolumeUp(d)) == d
    ensures d.volume > DefaultVolume ==> VolumeUp(VolumeDown(d)) == d
  {
  }

  /** Whatever the state, after the tape is taken out neither start nor stop is offered. */
  lemma RemovedOffersNoPlayback(d: Deck)
    ensures !Buttons(Remove(d)).canStart && !Buttons(Remove(d)).canStop
    ensures Start(Remove(d)) == Remove(d)
  {
  }

  /** Start then stop on a player holding a silent tape leaves it as it was. */
  lemma StartThenStop(d: Deck)
    requires d.inserted && !d.enabled
    ensures Stop(Start(d)) == d
  {
  }

  /** The BoomBox component and its handlers. */
  class BoomBox {
    var enabled: bool
    var stream: Option<AudioStream>
    var volume: int
    var inserted: bool
    var port: string
    var soundPath: string

    /** The component state as a Deck value. */
    function State(): Deck
      reads this
    {
      Deck(inserted, enabled, volume, soundPath)
    }

    ghost predicate Valid()
      reads this
    {
      Consistent(State())
    }

    /** A new component with the field defaults, signalling the default port. */
    constructor Default()
      ensures State() == InitialDeck() && stream == None && port == DefaultPort
      ensures Valid()
    {
      enabled := false;
      stream := None;
      volume := DefaultVolume;
      inserted := false;
      port := DefaultPort;
      soundPath := DefaultSoundPath;
      HandlersKeepConsistent(InitialDeck(), None);
    }

    /** A new component with the field defaults and a configured port. */
    constructor(port: string)
      ensures State() == InitialDeck() && stream == None && this.port == port
      ensures Valid()
    {
      enabled := false;
      stream := None;
      volume := DefaultVolume;
      inserted := false;
      this.port := port;
      soundPath := DefaultSoundPath;
      HandlersKeepConsistent(InitialDeck(), None);
    }

    /**
     * AddCurrentSoundPath: the inserted item's tape sound becomes the player's sound,
     * unless the item is not a tape or names no sound.
     */
    method AddCurrentSoundPath(added: Cassette)
      modifies this`soundPath
      ensures soundPath == SoundPathAfter(old(soundPath), Some(added))
    {
      if !added.isTape || added.soundPath.None? {
        return;
      }
      soundPath := added.soundPath.value;
    }

    /** OnItemInserted; `slot` is the item UpdateSoundPath finds in the tape slot (None when it finds none). */
    method OnItemInserted(slot: Option<Cassette>)
      modifies this
      ensures State() == Insert(old(State()), slot)
      ensures stream == old(stream) && port == old(port)
      ensures old(Valid()) ==> Valid()
    {
      inserted := true;
      if slot.Some? {
        AddCurrentSoundPath(slot.value);
      }
      HandlersKeepConsistent(old(State()), slot);
    }

    /** OnItemRemoved: the stream is stopped, and the player has no tape and is not playing. */
    method OnItemRemoved()
      modifies this
      ensures State() == Remove(old(State()))
      ensures stream == None && port == old(port)
      ensures old(Valid()) ==> Valid()
    {
      stream := None;
      inserted := false;
      enabled := false;
      HandlersKeepConsistent(old(State()), None);
    }

    /** UpdateUserInterface: the button flags sent to the window. */
    method UpdateUserInterface() returns (ui: UiState)
      ensures ui == Buttons(State())
    {
      var canPlusVol := true;
      var canMinusVol := true;
      var canStop := false;
      var canStart := false;
      if volume >= MaxVolume {
        canPlusVol := false;
      }
      if volume <= DefaultVolume {
        canMinusVol := false;
      }
      if inserted {
        if enabled {
          canStart := false;
          canStop := true;
        } else {
          canStart := true;
          canStop := false;
        }
      } else {
        canStart := false;
        canStop := false;
      }
      ui := UiState(canPlusVol, canMinusVol, canStop, canStart);
    }

    /** MinusVol; `ui` is the window update sent, None when the volume was already at its lowest and nothing happened. */
    method MinusVol() returns (ui: Option<UiState>)
      modifies this`volume
      ensures State() == VolumeDown(old(State()))
      ensures ui.None? <==> old(volume) <= DefaultVolume
      ensures ui.Some? ==> ui.value == Buttons(State())
      ensures old(Valid()) ==> Valid()
    {
      HandlersKeepConsistent(State(), None);
      if volume <= DefaultVolume {
        return None;
      }
      volume := volume - VolumeStep;
      var state := UpdateUserInterface();
      ui := Some(state);
    }

    /** PlusVol; `ui` is the window update sent, None when the volume was already at its loudest and nothing happened. */
    method PlusVol() returns (ui: Option<UiState>)
      modifies this`volume
      ensures State() == VolumeUp(old(State()))
      ensures ui.None? <==> old(volume) >= MaxVolume
      ensures ui.Some? ==> ui.value == Buttons(State())
      ensures old(Valid()) ==> Valid()
    {
      HandlersKeepConsistent(State(), None);
      if volume >= MaxVolume {
        return None;
      }
      volume := volume + VolumeStep;
      var state := UpdateUserInterface();
      ui := Some(state);
    }

    /** StartPlay; `played` is the stream the audio system returns for the new playback. */
    method StartPlay(played: Option<AudioStream>) returns (ui: UiState)
      modifies this`enabled, this`stream
      ensures State() == Start(old(State()))
      ensures stream == if old(inserted) && !old(enabled) then played else old(stream)
      ensures ui == Buttons(State())
      ensures old(Valid()) ==> Valid()
    {
      HandlersKeepConsistent(State(), None);
      if inserted && !enabled {
        enabled := true;
        stream := played;
      }
      ui := UpdateUserInterface();
    }

    /** StopPlay: stopping the stream leaves no stream. */
    method StopPlay() returns (ui: UiState)
      modifies this`enabled, this`stream
      ensures State() == Stop(old(State()))
      ensures stream == if old(inserted) && old(enabled) then None else old(stream)
      ensures ui == Buttons(State())
      ensures old(Valid()) ==> Valid()
    {
      HandlersKeepConsistent(State(), None);
      if inserted && enabled {
        enabled := false;
        stream := None;
      }
      ui := UpdateUserInterface();
    }
  }
}
