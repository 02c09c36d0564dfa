// The video embed: a URL is rewritten to the player URL of YouTube, Vimeo or
// Google Drive when one of their link shapes occurs in it, and otherwise kept;
// the result is then played by a <video> element when it names a direct video
// file and by an <iframe> otherwise. Each regular expression of the component
// is written out as a matcher at one position plus a leftmost scan, which is
// how `String.prototype.match` finds the first match of an unanchored pattern.

module VideoEmbed {
  import opened Seqs
  import opened Text

  /** `[a-zA-Z0-9_-]` */
  predicate IsIdChar(c: char) {
    'a' <= c <= 'z' || 'A' <= c <= 'Z' || '0' <= c <= '9' || c == '_' || c == '-'
  }

  /** The longest run of characters satisfying `p` that starts at `j` (a greedy `+` or `*`). */
  function Run(u: string, j: nat, p: char -> bool): (r: string)
    requires j <= |u|
    ensures j + |r| <= |u| && r == u[j..j + |r|]
    ensures forall k :: 0 <= k < |r| ==> p(r[k])
    ensures j + |r| == |u| || !p(u[j + |r|])
    decreases |u| - j
  {
    if j < |u| && p(u[j]) then [u[j]] + Run(u, j + 1, p) else []
  }

  /** The first match of a pattern whose matcher at position `k` is `at(k)`, trying k = i, i+1, ..., n. */
  function Scan(n: nat, i: nat, at: nat -> Option<string>): (r: Option<string>)
    ensures r.None? <==> forall k :: i <= k <= n ==> at(k).None?
    ensures r.Some? ==> exists k :: (i <= k <= n && at(k) == r &&
      forall j :: i <= j < k ==> at(j).None?)
    decreases n - i + 1
  {
    if i > n then None
    else if at(i).Some? then at(i)
    else Scan(n, i + 1, at)
  }

  /** Finding a match at `k` with nothing matching before it makes that match the result. */
  lemma ScanFindsFirst(n: nat, i: nat, at: nat -> Option<string>, k: nat)
    requires i <= k <= n && at(k).Some?
    requires forall j :: i <= j < k ==> at(j).None?
    ensures Scan(n, i, at) == at(k)
  {
    var r := Scan(n, i, at);
    var k' :| i <= k' <= n && at(k') == r && forall j :: i <= j < k' ==> at(j).None?;
  }

  // ---- YouTube: (?:youtube\.com\/(?:watch\?v=|embed\/|v\/)|youtu\.be\/)([a-zA-Z0-9_-]{11})

  const WatchPrefix := "youtube.com/watch?v="
  const EmbedPrefix := "youtube.com/embed/"
  const VPrefix := "youtube.com/v/"
  const ShortPrefix := "youtu.be/"

  /** Eleven id characters start at `j`. */
  predicate ElevenIdChars(u: string, j: nat) {
    j + 11 <= |u| && forall k :: j <= k < j + 11 ==> IsIdChar(u[k])
  }

  /** One alternative: `prefix` at `i`, then the eleven-character video id. */
  predicate YouTubeAltAt(u: string, i: nat, prefix: string) {
    OccursAt(u, prefix, i) && ElevenIdChars(u, i + |prefix|)
  }

  /** The YouTube pattern at position `i`, alternatives tried in order; the capture is the id. */
  function YouTubeAt(u: string, i: nat): (r: Option<string>)
    ensures r.Some? <==> exists p :: p in [WatchPrefix, EmbedPrefix, VPrefix, ShortPrefix] && YouTubeAltAt(u, i, p)
    ensures r.Some? ==> exists p :: (p in [WatchPrefix, EmbedPrefix, VPrefix, ShortPrefix] && YouTubeAltAt(u, i, p) &&
      r.value == u[i + |p|..i + |p| + 11])
    ensures r.Some? ==> |r.value| == 11 && forall k :: 0 <= k < 11 ==> IsIdChar(r.value[k])
    ensures r.Some? ==> i + 1 < |u| && u[i] == 'y' && u[i + 1] == 'o' && '.' in u[i..]
  {
    if YouTubeAltAt(u, i, WatchPrefix) then YouTubeCapture(u, i, WatchPrefix)
    else if YouTubeAltAt(u, i, EmbedPrefix) then YouTubeCapture(u, i, EmbedPrefix)
    else if YouTubeAltAt(u, i, VPrefix) then YouTubeCapture(u, i, VPrefix)
    else if YouTubeAltAt(u, i, ShortPrefix) then YouTubeCapture(u, i, ShortPrefix)
    else None
  }

  function YouTubeCapture(u: string, i: nat, prefix: string): (r: Option<string>)
    requires YouTubeAltAt(u, i, prefix)
    requires prefix in [WatchPrefix, EmbedPrefix, VPrefix, ShortPrefix]
    ensures r.Some? && r.value == u[i + |prefix|..i + |prefix| + 11]
    ensures |r.value| == 11 && forall k :: 0 <= k < 11 ==> IsIdChar(r.value[k])
    ensures u[i] == 'y' && u[i + 1] == 'o' && '.' in u[i..]
  {
    assert u[i..i + |prefix|] == prefix;
    assert u[i] == prefix[0] && u[i + 1] == prefix[1];
    assert '.' in prefix by {
      assert prefix[5] == '.' || prefix[7] == '.';
    }
    assert forall c :: c in prefix ==> c in u[i..] by {
      assert u[i..][..|prefix|] == prefix;
    }
    Some(u[i + |prefix|..i + |prefix| + 11])
  }

  /** `url.match(youtube)?.[1]`: the 11-character id of the leftmost match. */
  function YouTubeId(u: string): (r: Option<string>)
    ensures r.None? <==> forall k :: 0 <= k <= |u| ==> YouTubeAt(u, k).None?
    ensures r.Some? ==> |r.value| == 11 && forall k :: 0 <= k < 11 ==> IsIdChar(r.value[k])
  {
    YouTubeScan(u);
    Scan(|u|, 0, (k: nat) => YouTubeAt(u, k))
  }

  /** The scan finds a match exactly where `YouTubeAt` matches. */
  lemma YouTubeScan(u: string)
    ensures var r := Scan(|u|, 0, (k: nat) => YouTubeAt(u, k));
      (r.None? <==> forall k :: 0 <= k <= |u| ==> YouTubeAt(u, k).None?) &&
      (r.Some? ==> exists k :: 0 <= k <= |u| && YouTubeAt(u, k) == r)
  {
    var at := (k: nat) => YouTubeAt(u, k);
    var r := Scan(|u|, 0, at);
    if r.Some? {
      var k :| 0 <= k <= |u| && at(k) == r;
      assert YouTubeAt(u, k) == r;
    } else {
      forall k | 0 <= k <= |u| ensures YouTubeAt(u, k).None? {
        assert at(k).None?;
      }
    }
  }

  // ---- Vimeo: vimeo\.com\/(\d+)

  const VimeoPrefix := "vimeo.com/"

  function VimeoAt(u: string, i: nat): (r: Option<string>)
    ensures r.Some? <==> OccursAt(u, VimeoPrefix, i) && i + 10 < |u| && IsDigit(u[i + 10])
    ensures r.Some? ==> var d := r.value;
      |d| >= 1 && i + 10 + |d| <= |u| && d == u[i + 10..i + 10 + |d|] &&
      (forall k :: 0 <= k < |d| ==> IsDigit(d[k])) &&
      (i + 10 + |d| == |u| || !IsDigit(u[i + 10 + |d|]))
    ensures r.Some? ==> u[i] == 'v' && u[i + 1] == 'i' && '.' in u[i..]
  {
    if OccursAt(u, VimeoPrefix, i) then
      assert u[i..i + 10] == VimeoPrefix;
      assert u[i] == 'v' && u[i + 1] == 'i' && u[i + 5] == '.';
      var d := Run(u, i + 10, IsDigit);
      if d == [] then None else Some(d)
    else None
  }

  /** `url.match(vimeo)?.[1]`: the digits of the leftmost match. */
  function VimeoId(u: string): (r: Option<string>)
    ensures r.None? <==> forall k :: 0 <= k <= |u| ==> VimeoAt(u, k).None?
    ensures r.Some? ==> |r.value| >= 1 && forall k :: 0 <= k < |r.value| ==> IsDigit(r.value[k])
  {
    VimeoScan(u);
    Scan(|u|, 0, (k: nat) => VimeoAt(u, k))
  }

  /** The scan finds a match exactly where `VimeoAt` matches. */
  lemma VimeoScan(u: string)
    ensures var r := Scan(|u|, 0, (k: nat) => VimeoAt(u, k));
      (r.None? <==> forall k :: 0 <= k <= |u| ==> VimeoAt(u, k).None?) &&
      (r.Some? ==> exists k :: 0 <= k <= |u| && VimeoAt(u, k) == r)
  {
    var at := (k: nat) => VimeoAt(u, k);
    var r := Scan(|u|, 0, at);
    if r.Some? {
      var k :| 0 <= k <= |u| && at(k) == r;
      assert VimeoAt(u, k) == r;
    } else {
      forall k | 0 <= k <= |u| ensures VimeoAt(u, k).None? {
        assert at(k).None?;
      }
    }
  }

  // ---- Google Drive: drive\.google\.com\/file\/d\/([a-zA-Z0-9_-]+)

  const DrivePrefix := "drive.google.com/file/d/"

  function DriveAt(u: string, i: nat): (r: Option<string>)
    ensures r.Some? <==> OccursAt(u, DrivePrefix, i) && i + 24 < |u| && IsIdChar(u[i + 24])
    ensures r.Some? ==> var d := r.value;
      |d| >= 1 && i + 24 + |d| <= |u| && d == u[i + 24..i + 24 + |d|] &&
      (forall k :: 0 <= k < |d| ==> IsIdChar(d[k])) &&
      (i + 24 + |d| == |u| || !IsIdChar(u[i + 24 + |d|]))
    ensures r.Some? ==> u[i] == 'd' && u[i + 1] == 'r' && '.' in u[i..]
  {
    if OccursAt(u, DrivePrefix, i) then
      assert u[i..i + 24] == DrivePrefix;
      assert u[i] == u[i..i + 24][0] && u[i + 1] == u[i..i + 24][1] && u[i + 5] == u[i..i + 24][5];
      assert u[i] == 'd' && u[i + 1] == 'r' && u[i + 5] == '.';
      var d := Run(u, i + 24, IsIdChar);
      if d == [] then None else Some(d)
    else None
  }

  /** `url.match(drive)?.[1]`: the id of the leftmost match. */
  function DriveId(u: string): (r: Option<string>)
    ensures r.None? <==> forall k :: 0 <= k <= |u| ==> DriveAt(u, k).None?
    ensures r.Some? ==> |r.value| >= 1 && forall k :: 0 <= k < |r.value| ==> IsIdChar(r.value[k])
  {
    DriveScan(u);
    Scan(|u|, 0, (k: nat) => DriveAt(u, k))
  }

  /** The scan finds a match exactly where `DriveAt` matches. */
  lemma DriveScan(u: string)
    ensures var r := Scan(|u|, 0, (k: nat) => DriveAt(u, k));
      (r.None? <==> forall k :: 0 <= k <= |u| ==> DriveAt(u, k).None?) &&
      (r.Some? ==> exists k :: 0 <= k <= |u| && DriveAt(u, k) == r)
  {
    var at := (k: nat) => DriveAt(u, k);
    var r := Scan(|u|, 0, at);
    if r.Some? {
      var k :| 0 <= k <= |u| && at(k) == r;
      assert DriveAt(u, k) == r;
    } else {
      forall k | 0 <= k <= |u| ensures DriveAt(u, k).None? {
        assert at(k).None?;
      }
    }
  }

  // ---- The rewrite

  const YouTubeEmbed := "https://www.youtube.com/embed/"
  const VimeoPlayer := "https://player.vimeo.com/video/"
  const DriveFile := "https://drive.google.com/file/d/"
  const DrivePreview := "/preview"

  /** The `embedUrl` memo: YouTube first, then Vimeo, then Drive, else the URL itself. */
  function EmbedUrl(u: string): (r: string)
    ensures YouTubeId(u).Some? ==> r == YouTubeEmbed + YouTubeId(u).value
    ensures YouTubeId(u).None? && VimeoId(u).Some? ==> r == VimeoPlayer + VimeoId(u).value
    ensures YouTubeId(u).None? && VimeoId(u).None? && DriveId(u).Some? ==> r == DriveFile + DriveId(u).value + DrivePreview
    ensures YouTubeId(u).None? && VimeoId(u).None? && DriveId(u).None? ==> r == u
  {
    match YouTubeId(u)
    case Some(id) => YouTubeEmbed + id
    case None =>
      match VimeoId(u)
      case Some(id) => VimeoPlayer + id
      case None =>
        match DriveId(u)
        case Some(id) => DriveFile + id + DrivePreview
        case None => u
  }

  // ---- The rewrite is idempotent: every URL it produces rewrites to itself.

  /** The greedy run from `j` is exactly `d` when `d` sits there and a non-matching character or the end follows it. */
  lemma {:induction false} RunIs(u: string, j: nat, p: char -> bool, d: string)
    requires j + |d| <= |u| && u[j..j + |d|] == d
    requires forall k :: 0 <= k < |d| ==> p(d[k])
    requires j + |d| == |u| || !p(u[j + |d|])
    ensures Run(u, j, p) == d
    decreases |d|
  {
    if d != [] {
      assert u[j] == d[0];
      assert u[j + 1..j + |d|] == d[1..];
      RunIs(u, j + 1, p, d[1..]);
    }
  }

  /** No pattern matches where neither "yo", "vi" nor "dr" starts. */
  lemma NoMatchAt(w: string, k: nat)
    requires k + 1 >= |w| || !((w[k] == 'y' && w[k + 1] == 'o') || (w[k] == 'v' && w[k + 1] == 'i') || (w[k] == 'd' && w[k + 1] == 'r'))
    ensures YouTubeAt(w, k).None? && VimeoAt(w, k).None? && DriveAt(w, k).None?
  {
  }

  lemma YouTubeEmbedFacts()
    ensures |YouTubeEmbed| == 30 && YouTubeEmbed[12..] == EmbedPrefix && YouTubeEmbed[24] == 'e'
    ensures forall k :: 0 <= k < 12 ==> YouTubeEmbed[k] != 'y'
  {
  }

  /** A YouTube embed URL rewrites to itself. */
  lemma YouTubeOutputIsFixed(id: string)
    requires |id| == 11 && forall k :: 0 <= k < 11 ==> IsIdChar(id[k])
    ensures EmbedUrl(YouTubeEmbed + id) == YouTubeEmbed + id
  {
    var w := YouTubeEmbed + id;
    YouTubeEmbedFacts();
    forall k | 0 <= k < 12 ensures YouTubeAt(w, k).None? {
      assert w[k] == YouTubeEmbed[k];
    }
    YouTubeMatchesId(id);
    ScanFindsFirst(|w|, 0, (k: nat) => YouTubeAt(w, k), 12);
  }

  /** At "youtube.com/embed/" inside the embed URL, the YouTube pattern captures the id. */
  lemma YouTubeMatchesId(id: string)
    requires |id| == 11 && forall k :: 0 <= k < 11 ==> IsIdChar(id[k])
    ensures YouTubeAt(YouTubeEmbed + id, 12) == Some(id)
  {
    var w := YouTubeEmbed + id;
    YouTubeEmbedFacts();
    assert w[12..30] == EmbedPrefix;
    assert w[24] == 'e';
    assert !OccursAt(w, WatchPrefix, 12) by {
      assert WatchPrefix[12] == 'w';
    }
    assert ElevenIdChars(w, 30) by {
      forall k | 30 <= k < 41 ensures IsIdChar(w[k]) {
        assert w[k] == id[k - 30];
      }
    }
    assert w[30..41] == id;
  }

  lemma VimeoPlayerLength()
    ensures |VimeoPlayer| == 31 && VimeoPlayer[30] == '/' && VimeoPlayer[25] == 'v' && VimeoPlayer[27] == 'd'
  {
  }

  lemma VimeoPlayerNoYo()
    ensures forall k :: 0 <= k < 30 && VimeoPlayer[k] == 'y' ==> VimeoPlayer[k + 1] != 'o'
  {
  }

  lemma VimeoPlayerNoDr()
    ensures forall k :: 0 <= k < 30 && VimeoPlayer[k] == 'd' ==> VimeoPlayer[k + 1] != 'r'
  {
  }

  lemma VimeoPlayerVi()
    ensures forall k :: 0 <= k < 30 && VimeoPlayer[k] == 'v' && VimeoPlayer[k + 1] == 'i' ==> k == 15 || k == 25
  {
  }

  /** Inside the player prefix, only "vimeo" and "video" start with "vi", and neither is followed by the Vimeo pattern. */
  lemma VimeoPlayerNoMatch(d: string, k: nat)
    requires forall j :: 0 <= j < |d| ==> IsDigit(d[j])
    requires k < 31
    ensures YouTubeAt(VimeoPlayer + d, k).None? && VimeoAt(VimeoPlayer + d, k).None? && DriveAt(VimeoPlayer + d, k).None?
  {
    var w := VimeoPlayer + d;
    VimeoPlayerLength();
    if k == 30 {
      assert w[30] == '/';
      NoMatchAt(w, k);
    } else {
      VimeoPlayerNoYo();
      VimeoPlayerNoDr();
      VimeoPlayerVi();
      assert w[k] == VimeoPlayer[k] && w[k + 1] == VimeoPlayer[k + 1];
      if k == 15 {
        assert w[25] == 'v';
      } else if k == 25 {
        assert w[27] == 'd';
        assert !OccursAt(w, VimeoPrefix, 25) by {
          assert VimeoPrefix[2] == 'm';
        }
      } else {
        NoMatchAt(w, k);
      }
    }
  }

  /** A Vimeo player URL matches none of the three patterns, so it rewrites to itself. */
  lemma VimeoOutputIsFixed(d: string)
    requires forall k :: 0 <= k < |d| ==> IsDigit(d[k])
    ensures EmbedUrl(VimeoPlayer + d) == VimeoPlayer + d
  {
    var w := VimeoPlayer + d;
    VimeoPlayerLength();
    forall k | 0 <= k <= |w|
      ensures YouTubeAt(w, k).None? && VimeoAt(w, k).None? && DriveAt(w, k).None?
    {
      if k < 31 {
        VimeoPlayerNoMatch(d, k);
      } else if k < |w| {
        assert w[k] == d[k - 31];
        NoMatchAt(w, k);
      } else {
        NoMatchAt(w, k);
      }
    }
  }

  lemma DriveFileLength()
    ensures |DriveFile| == 32 && DriveFile[8..] == DrivePrefix && DriveFile[31] == '/'
  {
  }

  lemma DriveFileNoD()
    ensures forall k :: 0 <= k < 8 ==> DriveFile[k] != 'd'
  {
  }

  lemma DriveFileNoY()
    ensures forall k :: 0 <= k < 32 ==> DriveFile[k] != 'y'
  {
  }

  lemma DriveFileNoVi()
    ensures forall k :: 0 <= k < 31 && DriveFile[k] == 'v' ==> DriveFile[k + 1] != 'i'
  {
  }

  lemma DrivePreviewNoDot()
    ensures |DrivePreview| == 8 && DrivePreview[0] == '/'
    ensures forall k :: 0 <= k < 8 ==> DrivePreview[k] != '.'
  {
  }

  /** After the Drive prefix no '.' occurs, so no pattern can start there. */
  lemma DriveTailNoMatch(id: string, k: nat)
    requires forall j :: 0 <= j < |id| ==> IsIdChar(id[j])
    requires 32 <= k
    ensures YouTubeAt(DriveFile + id + DrivePreview, k).None? && VimeoAt(DriveFile + id + DrivePreview, k).None?
    ensures DriveAt(DriveFile + id + DrivePreview, k).None?
  {
    var w := DriveFile + id + DrivePreview;
    DriveFileLength();
    DrivePreviewNoDot();
    if k < |w| {
      forall j | k <= j < |w| ensures w[j] != '.' {
        if j < 32 + |id| {
          assert w[j] == id[j - 32];
        } else {
          assert w[j] == DrivePreview[j - 32 - |id|];
        }
      }
      assert '.' !in w[k..];
    }
  }

  /** Inside the Drive prefix, no YouTube or Vimeo match starts, and no Drive match before "drive". */
  lemma DriveHeadNoMatch(id: string, k: nat)
    requires k < 32
    ensures YouTubeAt(DriveFile + id + DrivePreview, k).None? && VimeoAt(DriveFile + id + DrivePreview, k).None?
    ensures k < 8 ==> DriveAt(DriveFile + id + DrivePreview, k).None?
  {
    var w := DriveFile + id + DrivePreview;
    DriveFileLength();
    DrivePreviewNoDot();
    if k < 31 {
      DriveFileNoY();
      DriveFileNoVi();
      DriveFileNoD();
      assert w[k] == DriveFile[k] && w[k + 1] == DriveFile[k + 1];
    } else {
      assert w[k] == '/';
      NoMatchAt(w, k);
    }
  }

  /** At "drive" the Drive pattern captures exactly the id, up to the "/" of "/preview". */
  lemma DriveMatchesId(id: string)
    requires |id| >= 1 && forall k :: 0 <= k < |id| ==> IsIdChar(id[k])
    ensures DriveAt(DriveFile + id + DrivePreview, 8) == Some(id)
  {
    var w := DriveFile + id + DrivePreview;
    DriveFileLength();
    DrivePreviewNoDot();
    assert w[8..32] == DrivePrefix;
    assert w[32..32 + |id|] == id;
    assert w[32 + |id|] == '/';
    RunIs(w, 32, IsIdChar, id);
    assert w[32] == id[0];
  }

  lemma DriveOutputNotYouTubeOrVimeo(id: string)
    requires forall k :: 0 <= k < |id| ==> IsIdChar(id[k])
    ensures YouTubeId(DriveFile + id + DrivePreview).None? && VimeoId(DriveFile + id + DrivePreview).None?
  {
    var w := DriveFile + id + DrivePreview;
    forall k | 0 <= k <= |w| ensures YouTubeAt(w, k).None? && VimeoAt(w, k).None? {
      if k < 32 {
        DriveHeadNoMatch(id, k);
      } else {
        DriveTailNoMatch(id, k);
      }
    }
  }

  lemma DriveOutputDriveId(id: string)
    requires |id| >= 1 && forall k :: 0 <= k < |id| ==> IsIdChar(id[k])
    ensures DriveId(DriveFile + id + DrivePreview) == Some(id)
  {
    var w := DriveFile + id + DrivePreview;
    forall k | 0 <= k < 8 ensures DriveAt(w, k).None? {
      DriveHeadNoMatch(id, k);
    }
    DriveMatchesId(id);
    ScanFindsFirst(|w|, 0, (k: nat) => DriveAt(w, k), 8);
  }

  /** A Drive preview URL matches only the Drive pattern, on the same id, so it rewrites to itself. */
  lemma DriveOutputIsFixed(id: string)
    requires |id| >= 1 && forall k :: 0 <= k < |id| ==> IsIdChar(id[k])
    ensures EmbedUrl(DriveFile + id + DrivePreview) == DriveFile + id + DrivePreview
  {
    DriveOutputNotYouTubeOrVimeo(id);
    DriveOutputDriveId(id);
  }

  /** Rewriting twice is rewriting once: an embed URL is returned as it is. */
  lemma EmbedUrlIdempotent(u: string)
    ensures EmbedUrl(EmbedUrl(u)) == EmbedUrl(u)
  {
    match YouTubeId(u)
    case Some(id) =>
      YouTubeOutputIsFixed(id);
    case None =>
      match VimeoId(u)
      case Some(d) =>
        VimeoOutputIsFixed(d);
      case None =>
        match DriveId(u)
        case Some(id) =>
          DriveOutputIsFixed(id);
        case None =>
  }

  // ---- Direct video files: \.(mp4|webm|ogg)(\?|$) with case ignored

  /** With case already folded, `ext` sits at `i` and is followed by '?' or by the end of the URL. */
  predicate ExtensionAt(l: string, i: nat, ext: string) {
    OccursAt(l, ext, i) && (i + |ext| == |l| || l[i + |ext|] == '?')
  }

  /** The pattern matches at `i` of the case-folded URL `l`. */
  predicate DirectAt(l: string, i: nat) {
    ExtensionAt(l, i, ".mp4") || ExtensionAt(l, i, ".webm") || ExtensionAt(l, i, ".ogg")
  }

  /** Scans `l` from `i` for a match. */
  function DirectFrom(l: string, i: nat): (r: bool)
    requires i <= |l|
    ensures r <==> exists k: nat :: i <= k < |l| && DirectAt(l, k)
    ensures i == 0 ==> (r <==> exists k: nat :: k < |l| && DirectAt(l, k))
    decreases |l| - i
  {
    if i == |l| then false
    else DirectAt(l, i) || DirectFrom(l, i + 1)
  }

  /** `isDirectVideo`: the pattern matches somewhere, letters compared without case. */
  function IsDirectVideo(u: string): (r: bool)
    ensures r <==> exists k: nat :: k < |u| && DirectAt(Lower(u), k)
  {
    assert |Lower(u)| == |u|;
    DirectFrom(Lower(u), 0)
  }

  /** A match at `k` starts with a dot followed by 'm', 'w' or 'o'. */
  lemma DirectAtHead(l: string, k: nat)
    requires DirectAt(l, k)
    ensures k + 1 < |l| && l[k] == '.' && (l[k + 1] == 'm' || l[k + 1] == 'w' || l[k + 1] == 'o')
  {
    if OccursAt(l, ".mp4", k) {
      assert l[k..k + 4][0] == l[k] && l[k..k + 4][1] == l[k + 1];
    } else if OccursAt(l, ".webm", k) {
      assert l[k..k + 5][0] == l[k] && l[k..k + 5][1] == l[k + 1];
    } else {
      assert l[k..k + 4][0] == l[k] && l[k..k + 4][1] == l[k + 1];
    }
  }

  /** A URL ending in one of the three extensions, in any case, is a direct video. */
  lemma EndsWithExtensionIsDirect(base: string, ext: string)
    requires Lower(ext) in [".mp4", ".webm", ".ogg"]
    ensures IsDirectVideo(base + ext)
  {
    var u := base + ext;
    var l := Lower(u);
    assert l[|base|..] == Lower(ext) by {
      forall k | 0 <= k < |ext| ensures l[|base| + k] == Lower(ext)[k] {
        assert u[|base| + k] == ext[k];
      }
    }
    assert DirectAt(l, |base|);
  }

  /** The same holds when a query string follows the extension. */
  lemma ExtensionBeforeQueryIsDirect(base: string, ext: string, query: string)
    requires Lower(ext) in [".mp4", ".webm", ".ogg"]
    ensures IsDirectVideo(base + ext + "?" + query)
  {
    var u := base + ext + "?" + query;
    var l := Lower(u);
    assert l[|base|..|base| + |ext|] == Lower(ext) by {
      forall k | 0 <= k < |ext| ensures l[|base| + k] == Lower(ext)[k] {
        assert u[|base| + k] == ext[k];
      }
    }
    assert u[|base| + |ext|] == '?';
    assert DirectAt(l, |base|);
  }

  /** A URL without a '.' is never a direct video. */
  lemma NoDotIsNotDirect(u: string)
    requires '.' !in u
    ensures !IsDirectVideo(u)
  {
    forall k: nat | k < |u| ensures !DirectAt(Lower(u), k) {
      assert u[k] != '.';
      if DirectAt(Lower(u), k) {
        DirectAtHead(Lower(u), k);
      }
    }
  }

  /** No match starts at `k` when `w[k]` is not a dot, or is a dot followed by a lower-case letter other than m, w and o. */
  lemma NotDirectAt(w: string, k: nat)
    requires k < |w|
    requires w[k] == '.' ==> k + 1 < |w| && 'a' <= w[k + 1] <= 'z' && w[k + 1] != 'm' && w[k + 1] != 'w' && w[k + 1] != 'o'
    ensures !DirectAt(Lower(w), k)
  {
    var l := Lower(w);
    if DirectAt(l, k) {
      DirectAtHead(l, k);
    }
  }

  lemma YouTubeEmbedDots()
    ensures forall k :: 0 <= k < 30 && YouTubeEmbed[k] == '.' ==> k == 11 || k == 19
    ensures YouTubeEmbed[12] == 'y' && YouTubeEmbed[20] == 'c'
  {
  }

  lemma VimeoPlayerDots()
    ensures forall k :: 0 <= k < 31 && VimeoPlayer[k] == '.' ==> k == 14 || k == 20
    ensures VimeoPlayer[15] == 'v' && VimeoPlayer[21] == 'c'
  {
  }

  lemma DriveFileDots()
    ensures forall k :: 0 <= k < 32 && DriveFile[k] == '.' ==> k == 13 || k == 20
    ensures DriveFile[14] == 'g' && DriveFile[21] == 'c'
  {
  }

  lemma YouTubeOutputNotDirectAt(id: string, k: nat)
    requires |id| == 11 && forall j :: 0 <= j < 11 ==> IsIdChar(id[j])
    requires k < |YouTubeEmbed + id|
    ensures !DirectAt(Lower(YouTubeEmbed + id), k)
  {
    var w := YouTubeEmbed + id;
    YouTubeEmbedFacts();
    YouTubeEmbedDots();
    if k < 30 {
      assert w[k] == YouTubeEmbed[k];
      if k == 11 || k == 19 {
        assert w[k + 1] == YouTubeEmbed[k + 1];
      }
    } else {
      assert w[k] == id[k - 30];
    }
    NotDirectAt(w, k);
  }

  /** The YouTube player URL is played in a frame. */
  lemma YouTubeOutputNotDirect(id: string)
    requires |id| == 11 && forall k :: 0 <= k < 11 ==> IsIdChar(id[k])
    ensures !IsDirectVideo(YouTubeEmbed + id)
  {
    forall k: nat | k < |YouTubeEmbed + id| ensures !DirectAt(Lower(YouTubeEmbed + id), k) {
      YouTubeOutputNotDirectAt(id, k);
    }
  }

  /** The Vimeo player URL is played in a frame. */
  lemma VimeoOutputNotDirect(d: string)
    requires forall k :: 0 <= k < |d| ==> IsDigit(d[k])
    ensures !IsDirectVideo(VimeoPlayer + d)
  {
    var w := VimeoPlayer + d;
    VimeoPlayerLength();
    VimeoPlayerDots();
    forall k: nat | k < |w| ensures !DirectAt(Lower(w), k) {
      if k < 31 {
        assert w[k] == VimeoPlayer[k];
        if k < 30 {
          assert w[k + 1] == VimeoPlayer[k + 1];
        }
      } else {
        assert w[k] == d[k - 31];
      }
      NotDirectAt(w, k);
    }
  }

  /** The Drive preview URL is played in a frame. */
  lemma DriveOutputNotDirect(id: string)
    requires forall k :: 0 <= k < |id| ==> IsIdChar(id[k])
    ensures !IsDirectVideo(DriveFile + id + DrivePreview)
  {
    var w := DriveFile + id + DrivePreview;
    DriveFileLength();
    DriveFileDots();
    DrivePreviewNoDot();
    forall k: nat | k < |w| ensures !DirectAt(Lower(w), k) {
      if k < 32 {
        assert w[k] == DriveFile[k];
        if k < 31 {
          assert w[k + 1] == DriveFile[k + 1];
        }
      } else if k < 32 + |id| {
        assert w[k] == id[k - 32];
      } else {
        assert w[k] == DrivePreview[k - 32 - |id|];
      }
      NotDirectAt(w, k);
    }
  }

  /** What the component renders: a `<video>` element or an `<iframe>`, on the rewritten URL. */
  datatype Player = VideoElement(src: string) | Frame(src: string)

  function Render(url: string): (p: Player)
    ensures p.src == EmbedUrl(url)
    ensures p.VideoElement? <==> IsDirectVideo(EmbedUrl(url))
  {
    var e := EmbedUrl(url);
    if IsDirectVideo(e) then VideoElement(e) else Frame(e)
  }

  /** A recognised YouTube, Vimeo or Drive link always plays in a frame. */
  lemma RecognisedLinkPlaysInFrame(url: string)
    requires YouTubeId(url).Some? || VimeoId(url).Some? || DriveId(url).Some?
    ensures Render(url).Frame?
  {
    match YouTubeId(url)
    case Some(id) =>
      YouTubeOutputNotDirect(id);
    case None =>
      match VimeoId(url)
      case Some(d) =>
        VimeoOutputNotDirect(d);
      case None =>
        DriveOutputNotDirect(DriveId(url).value);
  }

  /** A link none of the three patterns recognises is played as it is: as a video exactly when it is a direct video file. */
  lemma UnrecognisedLinkPlaysAsIs(url: string)
    requires YouTubeId(url).None? && VimeoId(url).None? && DriveId(url).None?
    ensures Render(url) == if IsDirectVideo(url) then VideoElement(url) else Frame(url)
  {
  }
}
