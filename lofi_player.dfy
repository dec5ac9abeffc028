/**
 * The lofi player: the track title shown for a playlist entry, and the
 * player state (current index and whether it plays) with the next,
 * previous and play/pause controls. The audio element is reduced to
 * whether it exists.
 */
module LofiPlayer {
  import Wrappers
  import opened Text
  import Playlist

  const UnknownTrack: string := "Unknown Track"

  /** Line 12: `split('/').pop()`, the text after the last '/'. */
  function AfterLastSlash(s: string): (r: string)
    ensures '/' !in r
    ensures |r| <= |s| && r == s[|s| - |r|..]
    ensures |r| < |s| ==> s[|s| - |r| - 1] == '/'
  {
    s[LastIndexOf(s, '/') + 1..]
  }

  /** Line 13: `replace(/\.mp3$/i, '')`, one trailing ".mp3" in any letter case. */
  function StripMp3Extension(s: string): (r: string)
    ensures Playlist.IsMp3Name(s) ==> |r| == |s| - 4 && r == s[..|s| - 4]
    ensures !Playlist.IsMp3Name(s) ==> r == s
  {
    if Playlist.IsMp3Name(s) then s[..|s| - |Playlist.Mp3Extension|] else s
  }

  /** The `\d+` part of line 14: the longest run of leading digits removed. */
  function DropDigits(s: string): (r: string)
    ensures |r| <= |s| && r == s[|s| - |r|..]
    ensures AllDigits(s[..|s| - |r|])
    ensures r == [] || !IsDigit(r[0])
  {
    if s != [] && IsDigit(s[0]) then DropDigits(s[1..]) else s
  }

  /**
   * Line 14: removing the pattern `^\d+\s*` at the start. A name that starts with a digit
   * loses its leading digits and the white space after them; any other name
   * is kept.
   */
  function StripTrackNumber(s: string): (r: string)
    ensures |r| <= |s| && r == s[|s| - |r|..]
    ensures s == [] || !IsDigit(s[0]) ==> r == s
    // otherwise the removed prefix is the whole run of leading digits, then all the white space after it
    ensures s != [] && IsDigit(s[0]) ==>
              var k := |s| - |DropDigits(s)|;
              1 <= k <= |s| - |r| && AllDigits(s[..k]) && (k < |s| ==> !IsDigit(s[k])) &&
              (forall i :: k <= i < |s| - |r| ==> IsWhiteSpace(s[i])) &&
              (r == [] || !IsWhiteSpace(r[0]))
  {
    if s != [] && IsDigit(s[0]) then
      var d := DropDigits(s);
      DropDigitsAtStart(s);
      TrimStartWithin(s, d);
      TrimStart(d)
    else s
  }

  /** A leading digit is always dropped, and what is left starts with no digit. */
  lemma DropDigitsAtStart(s: string)
    requires s != [] && IsDigit(s[0])
    ensures |DropDigits(s)| < |s|
    ensures var k := |s| - |DropDigits(s)|; k < |s| ==> !IsDigit(s[k])
  {
    var d := DropDigits(s);
    if |d| > 0 {
      assert d[0] == s[|s| - |d|];
    }
  }

  /** The white space `TrimStart` removes from a suffix is white space of the whole string. */
  lemma TrimStartWithin(s: string, d: string)
    requires |d| <= |s| && d == s[|s| - |d|..]
    ensures var r := TrimStart(d);
            forall i :: |s| - |d| <= i < |s| - |r| ==> IsWhiteSpace(s[i])
  {
    var r := TrimStart(d);
    forall i | |s| - |d| <= i < |s| - |r|
      ensures IsWhiteSpace(s[i])
    {
      assert s[i] == d[i - (|s| - |d|)];
    }
  }

  /** A track number of digits and white space in front of a name is removed, and nothing more. */
  lemma StripTrackNumberOf(digits: string, ws: string, rest: string)
    requires digits != [] && AllDigits(digits) && forall i :: 0 <= i < |ws| ==> IsWhiteSpace(ws[i])
    requires rest == [] || (!IsDigit(rest[0]) && !IsWhiteSpace(rest[0]))
    ensures StripTrackNumber(digits + ws + rest) == rest
  {
    assert digits + ws + rest == digits + (ws + rest);
    if ws != [] {
      assert (ws + rest)[0] == ws[0];
    }
    DropDigitsOf(digits, ws + rest);
    TrimStartOf(ws, rest);
  }

  lemma {:induction false} DropDigitsOf(digits: string, rest: string)
    requires AllDigits(digits) && (rest == [] || !IsDigit(rest[0]))
    ensures DropDigits(digits + rest) == rest
    decreases |digits|
  {
    if digits != [] {
      assert (digits + rest)[1..] == digits[1..] + rest;
      DropDigitsOf(digits[1..], rest);
    } else {
      assert digits + rest == rest;
    }
  }

  lemma {:induction false} TrimStartOf(ws: string, rest: string)
    requires forall i :: 0 <= i < |ws| ==> IsWhiteSpace(ws[i])
    requires rest == [] || !IsWhiteSpace(rest[0])
    ensures TrimStart(ws + rest) == rest
    decreases |ws|
  {
    if ws != [] {
      assert (ws + rest)[1..] == ws[1..] + rest;
      TrimStartOf(ws[1..], rest);
    } else {
      assert ws + rest == rest;
    }
  }

  /** Line 15: `replace(/[-_]/g, ' ')`. */
  function SeparatorsToSpaces(s: string): (r: string)
    ensures |r| == |s|
    ensures forall i :: 0 <= i < |s| ==>
              r[i] == (if s[i] == '-' || s[i] == '_' then ' ' else s[i])
    ensures '-' !in r && '_' !in r && ('/' !in s ==> '/' !in r)
  {
    if s == [] then [] else [if s[0] == '-' || s[0] == '_' then ' ' else s[0]] + SeparatorsToSpaces(s[1..])
  }

  /** A character missing from a string is missing from each of its slices. */
  lemma SliceLacks(s: string, i: int, j: int, c: char)
    requires 0 <= i <= j <= |s| && c !in s
    ensures c !in s[i..j]
  {
    assert forall k :: 0 <= k < j - i ==> s[i..j][k] == s[i + k];
  }

  /** The fallback title has no separators either. */
  lemma UnknownTrackChars()
    ensures '/' !in UnknownTrack && '-' !in UnknownTrack && '_' !in UnknownTrack
  {
  }

  /** Removing the extension and the track number cuts a slice out, so adds no '/'. */
  lemma NoSlashAfterStrip(s: string)
    requires '/' !in s
    ensures '/' !in StripTrackNumber(StripMp3Extension(s))
  {
    var base := StripMp3Extension(s);
    SliceLacks(s, 0, |base|, '/');
    var rest := StripTrackNumber(base);
    SliceLacks(base, |base| - |rest|, |base|, '/');
  }

  /** Lines 11-15: the file name with its extension, track number and separators replaced. */
  function TitleText(src: string): (t: string)
    ensures '/' !in t && '-' !in t && '_' !in t
  {
    var name := AfterLastSlash(src);
    NoSlashAfterStrip(name);
    SeparatorsToSpaces(StripTrackNumber(StripMp3Extension(name)))
  }

  /** Lines 9-17: the title of a playlist entry, or 'Unknown Track' when nothing is left. */
  function FormatTrackTitle(src: string): (title: string)
    ensures title != []
    ensures '/' !in title && '-' !in title && '_' !in title
    ensures TitleText(src) == [] ==> title == UnknownTrack
    ensures TitleText(src) != [] ==> title == TitleText(src)
  {
    var t := TitleText(src);
    if t == [] then UnknownTrackChars(); UnknownTrack else t
  }

  /** The text after the last '/' of a path is its file name. */
  lemma AfterLastSlashOfPath(dir: string, name: string)
    requires '/' !in name
    ensures AfterLastSlash(dir + "/" + name) == name && AfterLastSlash(name) == name
  {
    var s := dir + "/" + name;
    var k := LastIndexOf(s, '/');
    assert s[|dir|] == '/';
    assert forall j :: |dir| < j < |s| ==> s[j] == name[j - |dir| - 1];
    assert k == |dir|;
  }

  /** The directory of an entry never shows in its title. */
  lemma TitleIgnoresDirectory(dir: string, name: string)
    requires '/' !in name
    ensures FormatTrackTitle(dir + "/" + name) == FormatTrackTitle(name)
  {
    AfterLastSlashOfPath(dir, name);
  }

  /**
   * A numbered file such as "/Music/01 lazy-sunday.mp3" is titled by the
   * name between the number and the extension, separators turned into spaces.
   */
  lemma TitleOfNumberedTrack(dir: string, digits: string, ws: string, name: string)
    requires digits != [] && AllDigits(digits) && forall i :: 0 <= i < |ws| ==> IsWhiteSpace(ws[i])
    requires name == [] || (!IsDigit(name[0]) && !IsWhiteSpace(name[0]))
    requires '/' !in name
    ensures TitleText(dir + "/" + (digits + ws + name + ".mp3")) == SeparatorsToSpaces(name)
  {
    var file := digits + ws + name + ".mp3";
    NoSlashInNumberedFile(digits, ws, name);
    AfterLastSlashOfPath(dir, file);
    StripMp3Of(digits + ws + name);
    StripTrackNumberOf(digits, ws, name);
  }

  lemma NoSlashInNumberedFile(digits: string, ws: string, name: string)
    requires AllDigits(digits) && forall i :: 0 <= i < |ws| ==> IsWhiteSpace(ws[i])
    requires '/' !in name
    ensures '/' !in digits + ws + name + ".mp3"
  {
    var file := digits + ws + name + ".mp3";
    forall i | 0 <= i < |file|
      ensures file[i] != '/'
    {
      if i < |digits| {
        assert file[i] == digits[i];
      } else if i < |digits| + |ws| {
        assert file[i] == ws[i - |digits|];
      } else if i < |digits| + |ws| + |name| {
        assert file[i] == name[i - |digits| - |ws|];
      }
    }
  }

  /** A lower-case ".mp3" extension is stripped exactly. */
  lemma StripMp3Of(base: string)
    ensures StripMp3Extension(base + ".mp3") == base
  {
    var file := base + ".mp3";
    assert file[|file| - 4..] == ".mp3";
    assert Lower(".mp3") == ".mp3";
    assert file[..|file| - 4] == base;
  }

  /** Every playlist entry the music route serves is titled by its file name alone. */
  lemma PlaylistTitles(name: string)
    requires '/' !in name
    ensures FormatTrackTitle(Playlist.MusicPath(name)) == FormatTrackTitle(name)
  {
    assert Playlist.MusicPath(name) == "/Music" + "/" + name;
    TitleIgnoresDirectory("/Music", name);
  }

  /** Line 52: the index after `i` in a playlist of `n` tracks, wrapping to the first. */
  function NextIndex(i: int, n: int): (j: int)
    requires i >= 0 && n > 0
    ensures 0 <= j < n
    ensures i < n ==> j == (if i == n - 1 then 0 else i + 1)
  {
    (i + 1) % n
  }

  /** Line 58: the index before `i`, wrapping to the last. */
  function PreviousIndex(i: int, n: int): (j: int)
    requires i >= 0 && n > 0
    ensures 0 <= j < n
    ensures i < n ==> j == (if i == 0 then n - 1 else i - 1)
  {
    (i - 1 + n) % n
  }

  /** Skipping forward and then back returns to the same track. */
  lemma PreviousUndoesNext(i: int, n: int)
    requires 0 <= i < n
    ensures PreviousIndex(NextIndex(i, n), n) == i
    ensures NextIndex(PreviousIndex(i, n), n) == i
  {
  }

  /** Which of the page's callbacks a play/pause notifies. */
  datatype Notification = OnPlay | OnPause

  class Player {
    var playlist: seq<string>
    var currentTrackIndex: int
    var isPlaying: bool
    var hasAudioElement: bool

    predicate Valid()
      reads this
    {
      currentTrackIndex >= 0
    }

    /** Lines 31-32: the first track, not playing. */
    constructor (playlist: seq<string>, hasAudioElement: bool)
      ensures this.playlist == playlist && this.hasAudioElement == hasAudioElement
      ensures currentTrackIndex == 0 && !isPlaying
      ensures Valid()
    {
      this.playlist := playlist;
      this.hasAudioElement := hasAudioElement;
      currentTrackIndex := 0;
      isPlaying := false;
    }

    /** Line 34: `playlist[currentTrackIndex] || ''`. */
    function CurrentTrackSrc(): (src: string)
      reads this
      ensures 0 <= currentTrackIndex < |playlist| ==> src == playlist[currentTrackIndex]
      ensures !(0 <= currentTrackIndex < |playlist|) ==> src == ""
    {
      if 0 <= currentTrackIndex < |playlist| then playlist[currentTrackIndex] else ""
    }

    /** Line 102: the skip and play buttons are disabled for an empty playlist. */
    predicate ControlsDisabled()
      reads this
    {
      |playlist| == 0
    }

    /** Lines 51-55: skip to the next track (also on 'ended'); the buttons need a track. */
    method PlayNext()
      requires Valid() && !ControlsDisabled()
      modifies this
      ensures playlist == old(playlist) && isPlaying == old(isPlaying) && hasAudioElement == old(hasAudioElement)
      ensures currentTrackIndex == NextIndex(old(currentTrackIndex), |playlist|)
      ensures Valid() && 0 <= currentTrackIndex < |playlist|
    {
      currentTrackIndex := NextIndex(currentTrackIndex, |playlist|);
    }

    /** Lines 57-61: skip to the previous track. */
    method PlayPrevious()
      requires Valid() && !ControlsDisabled()
      modifies this
      ensures playlist == old(playlist) && isPlaying == old(isPlaying) && hasAudioElement == old(hasAudioElement)
      ensures currentTrackIndex == PreviousIndex(old(currentTrackIndex), |playlist|)
      ensures Valid() && 0 <= currentTrackIndex < |playlist|
    {
      currentTrackIndex := PreviousIndex(currentTrackIndex, |playlist|);
    }

    /**
     * Lines 93-100 with `playTrack` and `pauseTrack` (37-49): nothing without
     * an audio element; otherwise the state flips and the matching callback
     * is notified.
     */
    method TogglePlayPause() returns (notified: Wrappers.Option<Notification>)
      modifies this
      ensures !hasAudioElement ==> isPlaying == old(isPlaying) && notified.None?
      ensures hasAudioElement ==> isPlaying == !old(isPlaying)
      ensures hasAudioElement ==> notified == Wrappers.Some(if isPlaying then OnPlay else OnPause)
      ensures playlist == old(playlist) && currentTrackIndex == old(currentTrackIndex)
      ensures hasAudioElement == old(hasAudioElement)
    {
      if !hasAudioElement {
        return Wrappers.None;
      }
      if isPlaying {
        isPlaying := false;
        notified := Wrappers.Some(OnPause);
      } else {
        isPlaying := true;
        notified := Wrappers.Some(OnPlay);
      }
    }
  }
}
