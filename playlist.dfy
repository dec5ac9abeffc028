/**
 * The music playlist route: the `.mp3` files of `public/Music`, in directory
 * order, as public URLs, or a 500 error naming why the directory could not
 * be read. The directory read itself is the `listing` parameter.
 */
module Playlist {
  import opened Wrappers
  import opened Text

  const Mp3Extension: string := ".mp3"
  const MusicPrefix: string := "/Music/"
  const DirectoryNotFoundMessage: string := "Music directory not found."
  const LoadFailedMessage: string := "Failed to load music playlist."

  /** `/\.mp3$/i`: the name ends with ".mp3" in any letter case. */
  predicate IsMp3Name(f: string) {
    |f| >= |Mp3Extension| && Lower(f[|f| - |Mp3Extension|..]) == Mp3Extension
  }

  /** Line 16: the public URL of a file in the music directory. */
  function MusicPath(f: string): (p: string)
    ensures StartsWith(p, MusicPrefix) && p[|MusicPrefix|..] == f
  {
    MusicPrefix + f
  }

  /** Lines 14-16: keep the `.mp3` names, in order, as public URLs. */
  function Mp3Playlist(files: seq<string>): (r: seq<string>)
    ensures |r| <= |files|
    ensures forall x :: x in r ==> exists f :: f in files && IsMp3Name(f) && x == MusicPath(f)
    ensures forall f :: f in files && IsMp3Name(f) ==> MusicPath(f) in r
  {
    if files == [] then []
    else
      var rest := Mp3Playlist(files[1..]);
      assert forall f :: f in files[1..] ==> f in files;
      if IsMp3Name(files[0]) then [MusicPath(files[0])] + rest else rest
  }

  /** Directory order is kept: the playlist of a listing is the playlists of its parts, in order. */
  lemma {:induction false} Mp3PlaylistAppend(a: seq<string>, b: seq<string>)
    ensures Mp3Playlist(a + b) == Mp3Playlist(a) + Mp3Playlist(b)
    decreases |a|
  {
    if a == [] {
      assert a + b == b;
    } else {
      assert (a + b)[1..] == a[1..] + b;
      Mp3PlaylistAppend(a[1..], b);
    }
  }

  /** The outcome of reading the directory: its names, or the error's code (`ENOENT` when it is missing). */
  datatype Listing = Listed(filenames: seq<string>) | ReadFailed(code: Option<string>)

  datatype Response = PlaylistFound(playlist: seq<string>) | Failure(status: int, error: string)

  /** Lines 22-25: a missing directory is named as such; any other failure is generic. */
  function ErrorMessage(code: Option<string>): (m: string)
    ensures m == DirectoryNotFoundMessage <==> code == Some("ENOENT")
    ensures m == LoadFailedMessage <==> code != Some("ENOENT")
  {
    if code == Some("ENOENT") then DirectoryNotFoundMessage else LoadFailedMessage
  }

  /** Lines 5-31: the GET handler. */
  function Get(listing: Listing): (r: Response)
    ensures r.PlaylistFound? <==> listing.Listed?
    ensures r.PlaylistFound? ==> r.playlist == Mp3Playlist(listing.filenames)
    ensures listing.Listed? && listing.filenames == [] ==> r == PlaylistFound([])
    ensures r.Failure? ==> r.status == 500 && r.error == ErrorMessage(listing.code)
  {
    match listing
    case Listed(filenames) => PlaylistFound(Mp3Playlist(filenames))
    case ReadFailed(code) => Failure(500, ErrorMessage(code))
  }
}
