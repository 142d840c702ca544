/**
 * js/managers/AudioManager.js: the pure text rules behind the on-screen
 * congratulation and special-clear messages, and the audio manager's
 * bookkeeping of what is playing (the sound cache and the two music
 * handles). Playback itself is outside the model; sounds are named by their
 * cache keys.
 */
module AudioManager {

  import opened Wrappers
  import opened Text

  /** `message.replace(/_/g, ' ')`. */
  function Spaced(m: string): (r: string)
    ensures |r| == |m|
    ensures forall i :: 0 <= i < |m| ==> r[i] == if m[i] == '_' then ' ' else m[i]
    decreases |m|
  {
    if |m| == 0 then "" else [if m[0] == '_' then ' ' else m[0]] + Spaced(m[1..])
  }

  predicate EndsWithBang(s: string)
  {
    |s| > 0 && s[|s| - 1] == '!'
  }

  /**
   * displayCongratulationText's formatting (the same steps appear in the
   * audio manager and in the game scene): underscores become spaces, the
   * first character is upper-cased, and a `!` is appended unless the text
   * already ends with one.
   */
  function FormatCongratulation(message: string): (r: string)
    ensures EndsWithBang(r)
    ensures |r| == if EndsWithBang(message) then |message| else |message| + 1
    ensures forall i :: 0 <= i < |message| ==>
              r[i] == if i == 0 then Upper(if message[0] == '_' then ' ' else message[0])
                      else if message[i] == '_' then ' ' else message[i]
    ensures '_' !in r
  {
    var spaced := Spaced(message);
    var capital := if |spaced| == 0 then "" else [Upper(spaced[0])] + spaced[1..];
    assert forall i :: 0 <= i < |capital| ==> capital[i] != '_';
    if EndsWithBang(capital) then capital else capital + "!"
  }

  /** Formatting an already formatted text returns it unchanged. */
  lemma FormatIdempotent(message: string)
    ensures FormatCongratulation(FormatCongratulation(message)) == FormatCongratulation(message)
  {
    var r := FormatCongratulation(message);
    var rr := FormatCongratulation(r);
    assert r[0] != '_' && !('a' <= Upper(r[0]) <= 'z');
    if |message| > 0 {
      var c := if message[0] == '_' then ' ' else message[0];
      assert r[0] == Upper(c);
    }
    forall i | 0 <= i < |r|
      ensures rr[i] == r[i]
    {
    }
  }

  /** Two of the voice messages as they appear on screen. */
  lemma FormatExamples()
    ensures FormatCongratulation("fantastic") == "Fantastic!"
    ensures FormatCongratulation("great_aim") == "Great aim!"
    ensures FormatCongratulation("") == "!"
  {
    FormatMatches("fantastic", "Fantastic!");
    FormatMatches("great_aim", "Great aim!");
    FormatMatches("", "!");
  }

  /** FormatCongratulation's result is fixed by its length and its characters. */
  lemma FormatMatches(message: string, expected: string)
    requires !EndsWithBang(message) && |expected| == |message| + 1 && expected[|message|] == '!'
    requires forall i :: 0 <= i < |message| ==>
               expected[i] == if i == 0 then Upper(if message[0] == '_' then ' ' else message[0])
                              else if message[i] == '_' then ' ' else message[i]
    ensures FormatCongratulation(message) == expected
  {
    var r := FormatCongratulation(message);
    assert |r| == |expected|;
    forall i | 0 <= i < |r|
      ensures r[i] == expected[i]
    {
    }
  }

  /** displaySpecialClearText's tier for a jump in reveal percentage; `None` shows nothing. */
  function SpecialClearText(percentageCleared: int): (r: Option<string>)
    ensures r.None? <==> percentageCleared < 20
  {
    if percentageCleared < 20 then None
    else if percentageCleared >= 40 then Some("SPECTACULAR!!!")
    else if percentageCleared >= 30 then Some("AMAZING!!!")
    else Some("WOW!!")
  }

  /** The tiers: 20 to 29, 30 to 39, and 40 upwards. */
  lemma SpecialClearTiers(p: int)
    ensures 20 <= p < 30 ==> SpecialClearText(p) == Some("WOW!!")
    ensures 30 <= p < 40 ==> SpecialClearText(p) == Some("AMAZING!!!")
    ensures 40 <= p ==> SpecialClearText(p) == Some("SPECTACULAR!!!")
    ensures p < 20 ==> SpecialClearText(p).None?
  {
  }

  /** A music handle: `None` is null. */
  datatype Music = Music(key: string)

  /**
   * The audio manager after `initialize`: `dummy` records that no sound
   * system was found, in which case every audio method was replaced by one
   * that does nothing.
   */
  class AudioManager {
    var soundsEnabled: bool
    var soundCache: set<string>
    var bgMusic: Option<Music>
    var victoryMusic: Option<Music>
    var dummy: bool
    var stopped: seq<string>

    constructor (hasAudio: bool)
      ensures soundsEnabled && soundCache == {} && bgMusic.None? && victoryMusic.None?
      ensures dummy == !hasAudio && stopped == []
    {
      soundsEnabled := true;
      soundCache := {};
      bgMusic := None;
      victoryMusic := None;
      dummy := !hasAudio;
      stopped := [];
    }

    /** playSFX(key): `inAudioCache` says whether the key's audio is loaded. */
    method PlaySFX(key: string, inAudioCache: bool)
      modifies this
      ensures soundCache == if !dummy && soundsEnabled && inAudioCache then old(soundCache) + {key} else old(soundCache)
      ensures soundsEnabled == old(soundsEnabled) && bgMusic == old(bgMusic) && victoryMusic == old(victoryMusic)
      ensures dummy == old(dummy) && stopped == old(stopped)
    {
      if dummy || !soundsEnabled || !inAudioCache {
        return;
      }
      soundCache := soundCache + {key};
    }

    /** The `complete` callback of a sound started by playSFX: its key leaves the cache. */
    method SoundComplete(key: string)
      modifies this
      ensures soundCache == old(soundCache) - {key}
      ensures soundsEnabled == old(soundsEnabled) && bgMusic == old(bgMusic) && victoryMusic == old(victoryMusic)
      ensures dummy == old(dummy) && stopped == old(stopped)
    {
      soundCache := soundCache - {key};
    }

    /** stopAll: both music handles are dropped and the cache is emptied (a no-op without audio). */
    method StopAll()
      modifies this
      ensures dummy ==> soundCache == old(soundCache) && bgMusic == old(bgMusic) &&
                        victoryMusic == old(victoryMusic) && stopped == old(stopped)
      ensures !dummy ==> soundCache == {} && bgMusic.None? && victoryMusic.None?
      ensures !dummy ==> |old(stopped)| <= |stopped| && stopped[..|old(stopped)|] == old(stopped) &&
                         multiset(stopped[|old(stopped)|..]) == multiset(old(soundCache))
      ensures soundsEnabled == old(soundsEnabled) && dummy == old(dummy)
    {
      if dummy {
        return;
      }
      bgMusic := None;
      victoryMusic := None;
      var pending, halted := soundCache, [];
      while pending != {}
        invariant pending <= soundCache
        invariant multiset(halted) == multiset(soundCache - pending)
        decreases |pending|
      {
        var k :| k in pending;
        assert soundCache - (pending - {k}) == (soundCache - pending) + {k};
        halted := halted + [k];
        pending := pending - {k};
      }
      assert soundCache - pending == soundCache;
      ghost var before := stopped;
      stopped := stopped + halted;
      assert stopped[..|before|] == before && stopped[|before|..] == halted;
      soundCache := {};
    }

    /** setEnabled(enabled): disabling stops everything. */
    method SetEnabled(enabled: bool)
      modifies this
      ensures soundsEnabled == enabled && dummy == old(dummy)
      ensures !enabled && !dummy ==> soundCache == {} && bgMusic.None? && victoryMusic.None?
      ensures enabled || dummy ==> soundCache == old(soundCache) && bgMusic == old(bgMusic) &&
                                   victoryMusic == old(victoryMusic)
    {
      soundsEnabled := enabled;
      if !enabled {
        StopAll();
      }
    }

    /** cleanup: whatever the sound system, both handles end null and the cache empty. */
    method Cleanup()
      modifies this
      ensures soundCache == {} && bgMusic.None? && victoryMusic.None?
      ensures soundsEnabled == old(soundsEnabled) && dummy == old(dummy)
    {
      StopAll();
      bgMusic := None;
      victoryMusic := None;
      soundCache := {};
    }
  }
}
