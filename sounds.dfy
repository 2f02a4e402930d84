/** The osu! sound enums: hit object types, hit sounds, sample sets and
    volumes, each with the number osu! files use for it. */
module Sounds {

  /** HitType: the type bits of a hit object. */
  datatype HitType = HIT | SLIDER | SPINNER | MANIA_HOLD {
    function Id(): int {
      match this
      case HIT => 1
      case SLIDER => 2
      case SPINNER => 8
      case MANIA_HOLD => 128
    }
  }

  /** HitSound: the additive hit sound flags. */
  datatype HitSound = HIT | WHISTLE | FINISH | CLAP {
    function Id(): int {
      match this
      case HIT => 0
      case WHISTLE => 2
      case FINISH => 4
      case CLAP => 8
    }
  }

  datatype SampleSet = AUTO | NORMAL | SOFT | DRUM {
    function Id(): int {
      match this
      case AUTO => 0
      case NORMAL => 1
      case SOFT => 2
      case DRUM => 3
    }
  }

  datatype Volume = FULL | HALF | NONE {
    function Level(): int {
      match this
      case FULL => 100
      case HALF => 50
      case NONE => 0
    }
  }

  /** Each enum's numbers tell its constants apart, so a number read from
      an osu! file names at most one constant. */
  lemma IdsDistinct(a: HitType, b: HitType, c: HitSound, d: HitSound, e: SampleSet, f: SampleSet, g: Volume, h: Volume)
    ensures a.Id() == b.Id() ==> a == b
    ensures c.Id() == d.Id() ==> c == d
    ensures e.Id() == f.Id() ==> e == f
    ensures g.Level() == h.Level() ==> g == h
  {
  }

  /** Arrays.stream(sounds).distinct().mapToInt(getId).sum(): each sound
      counted once, however often it is listed. */
  function SoundIndex(sounds: seq<HitSound>): int {
    if sounds == [] then 0
    else
      var last := sounds[|sounds| - 1];
      SoundIndex(sounds[..|sounds| - 1]) + if last in sounds[..|sounds| - 1] then 0 else last.Id()
  }

  /** The flag a sound contributes when it is in the list. */
  function Flag(sounds: seq<HitSound>, s: HitSound): int {
    if s in sounds then s.Id() else 0
  }

  /** The index is the sum of the flags of the sounds present: the
      whistle, finish and clap bits are set exactly for the sounds listed,
      and HIT adds nothing. */
  lemma {:induction false} SoundIndexFlags(sounds: seq<HitSound>)
    ensures SoundIndex(sounds) == Flag(sounds, WHISTLE) + Flag(sounds, FINISH) + Flag(sounds, CLAP)
  {
    if sounds != [] {
      var init := sounds[..|sounds| - 1];
      SoundIndexFlags(init);
      assert sounds == init + [sounds[|sounds| - 1]];
      forall s: HitSound ensures (s in sounds) == (s in init || s == sounds[|sounds| - 1]) {
      }
    }
  }

  /** The sum of three distinct flag bits, read back bit by bit. */
  lemma FlagBits(w: bool, f: bool, c: bool)
    ensures var n := (if w then 2 else 0) + (if f then 4 else 0) + (if c then 8 else 0);
      0 <= n <= 14 && n % 2 == 0 &&
      ((n / 2) % 2 == 1 <==> w) && ((n / 4) % 2 == 1 <==> f) && (n / 8 == 1 <==> c)
  {
    if w { if f { if c { } else { } } else { if c { } else { } } }
    else { if f { if c { } else { } } else { if c { } else { } } }
  }

  /** The index decodes back to the set of sounds listed (HIT aside): it
      is even, at most 14, and bit k of it is set exactly when the sound
      with id 2^k is listed. Two lists give the same index exactly when they
      name the same sounds other than HIT. */
  lemma SoundIndexDecodes(sounds: seq<HitSound>, other: seq<HitSound>)
    ensures 0 <= SoundIndex(sounds) <= 14 && SoundIndex(sounds) % 2 == 0
    ensures (SoundIndex(sounds) / 2) % 2 == 1 <==> WHISTLE in sounds
    ensures (SoundIndex(sounds) / 4) % 2 == 1 <==> FINISH in sounds
    ensures SoundIndex(sounds) / 8 == 1 <==> CLAP in sounds
    ensures SoundIndex(sounds) == SoundIndex(other) <==>
      (forall s: HitSound :: s != HitSound.HIT ==> (s in sounds <==> s in other))
  {
    SoundIndexFlags(sounds);
    SoundIndexFlags(other);
    FlagBits(WHISTLE in sounds, FINISH in sounds, CLAP in sounds);
    FlagBits(WHISTLE in other, FINISH in other, CLAP in other);
    if forall s: HitSound :: s != HitSound.HIT ==> (s in sounds <==> s in other) {
      assert (WHISTLE in sounds <==> WHISTLE in other) && (FINISH in sounds <==> FINISH in other)
        && (CLAP in sounds <==> CLAP in other);
    }
  }
}
