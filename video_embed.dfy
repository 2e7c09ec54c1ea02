/** The video-URL resolver behind the `VideoEmbed` component: three regular
    expressions, tried in the order YouTube, Vimeo, Loom, each searched for
    anywhere in the URL; the first that matches builds the embed URL.

    Each pattern is modelled twice: as a declarative "the pattern can match
    here" predicate (the language of the regular expression), and as an
    anchored matcher that follows the backtracking order of JavaScript's
    regular-expression engine (alternatives left to right, greedy repetitions
    longest first). `Common.Leftmost` supplies the unanchored search. */
module VideoEmbed {
  import opened Common

  const YouTubeEmbed := "https://www.youtube.com/embed/"
  const VimeoEmbed := "https://player.vimeo.com/video/"
  const LoomEmbed := "https://www.loom.com/embed/"

  /** `{11}`: the length of a YouTube video id. */
  const YouTubeIdLength := 11

  /** Shown instead of the player when no pattern matches. */
  const InvalidUrlText := "Invalid video URL. Supported platforms: YouTube, Vimeo, Loom"

  // ---------------------------------------------------------------------
  // Character classes
  // ---------------------------------------------------------------------

  /** The characters `.` does not match. */
  predicate IsLineTerminator(c: char) {
    c == '\n' || c == '\r' || c == '\U{2028}' || c == '\U{2029}'
  }

  predicate NotLineTerminator(c: char) { !IsLineTerminator(c) }

  /** `\s` of JavaScript regular expressions. */
  predicate IsSpace(c: char) {
    c == '\t' || c == '\n' || c == '\U{B}' || c == '\U{C}' || c == '\r' || c == ' '
    || c == '\U{A0}' || c == '\U{1680}' || ('\U{2000}' <= c <= '\U{200A}')
    || c == '\U{2028}' || c == '\U{2029}' || c == '\U{202F}' || c == '\U{205F}'
    || c == '\U{3000}' || c == '\U{FEFF}'
  }

  /** `[^"&?\/\s]`: a character of a YouTube id. */
  predicate IsIdChar(c: char) {
    c != '"' && c != '&' && c != '?' && c != '/' && !IsSpace(c)
  }

  predicate NotSlash(c: char) { c != '/' }

  /** `\d`. */
  predicate IsDigit(c: char) { '0' <= c <= '9' }

  /** `[a-zA-Z0-9]`. */
  predicate IsAlnum(c: char) { 'a' <= c <= 'z' || 'A' <= c <= 'Z' || IsDigit(c) }

  /** Eleven id characters start at `i`. */
  predicate IdAt(s: string, i: nat) {
    i + YouTubeIdLength <= |s| && forall k :: i <= k < i + YouTubeIdLength ==> IsIdChar(s[k])
  }

  // ---------------------------------------------------------------------
  // YouTube: (?:youtube\.com\/(?:[^\/]+\/.+\/|(?:v|e(?:mbed)?)\/|.*[?&]v=)|youtu\.be\/)([^"&?\/\s]{11})
  // ---------------------------------------------------------------------

  /** `[^\/]+\/.+\/` matches `s[q..i]`: a non-empty slash-free segment up to
      the slash at `k`, then at least one character other than a line
      terminator, then the slash at `i - 1`. */
  ghost predicate SegmentPath(s: string, q: nat, k: nat, i: nat) {
    q < k && k + 2 < i <= |s| && s[k] == '/' && s[i - 1] == '/'
    && (forall m :: q <= m < k ==> s[m] != '/')
    && (forall m :: k < m < i - 1 ==> !IsLineTerminator(s[m]))
  }

  /** `.*[?&]v=` matches `s[q..i]`. */
  ghost predicate ParamPath(s: string, q: nat, i: nat) {
    q + 3 <= i <= |s| && (s[i - 3] == '?' || s[i - 3] == '&') && s[i - 2] == 'v' && s[i - 1] == '='
    && (forall m :: q <= m < i - 3 ==> !IsLineTerminator(s[m]))
  }

  /** The group after `youtube.com/` matches `s[q..i]`. */
  ghost predicate DomainPath(s: string, q: nat, i: nat) {
    || (exists k: nat :: SegmentPath(s, q, k, i))
    || (HasAt(s, q, "v/") && i == q + 2)
    || (HasAt(s, q, "embed/") && i == q + 6)
    || (HasAt(s, q, "e/") && i == q + 2)
    || ParamPath(s, q, i)
  }

  /** Everything in front of the capture group matches `s[p..i]`. */
  ghost predicate YouTubeLead(s: string, p: nat, i: nat) {
    || (HasAt(s, p, "youtube.com/") && DomainPath(s, p + 12, i))
    || (HasAt(s, p, "youtu.be/") && i == p + 9)
  }

  /** The YouTube pattern can match starting at `p`, capturing `id`. */
  ghost predicate YouTubeMatch(s: string, p: nat, id: string) {
    exists i: nat :: YouTubeLead(s, p, i) && IdAt(s, i) && id == s[i..i + YouTubeIdLength]
  }

  /** The first alternative after `youtube.com/`, anchored at `q`: the segment
      `[^\/]+` can only end at the first slash, and the greedy `.+` then gives
      back characters until a slash followed by an id is found, so the id
      after the LAST such slash on the line is the one captured. Returns where
      the id starts. */
  function SegmentForm(s: string, q: nat): (r: Option<nat>)
    requires q <= |s|
    ensures r.Some? ==> (exists k: nat :: SegmentPath(s, q, k, r.value)) && IdAt(s, r.value)
    ensures r.Some? ==> forall k: nat, i: nat :: r.value < i && SegmentPath(s, q, k, i) ==> !IdAt(s, i)
    ensures r.None? ==> forall k: nat, i: nat :: SegmentPath(s, q, k, i) ==> !IdAt(s, i)
  {
    var k := RunEnd(s, q, NotSlash);
    if q < k < |s| then
      var e := RunEnd(s, k + 1, NotLineTerminator);
      var found := LastWhere(k + 2, e, SlashBeforeId(s));
      SegmentFormFacts(s, q, k, e, found);
      if found.Some? then Some(found.value + 1) else None
    else
      SegmentFormNone(s, q, k);
      None
  }

  /** A slash at `j` with an id right after it. */
  function SlashBeforeId(s: string): nat -> bool {
    (j: nat) => j < |s| && s[j] == '/' && IdAt(s, j + 1)
  }

  /** The segment before the middle `.+` ends at the first slash after `q`. */
  lemma SegmentEndsAtFirstSlash(s: string, q: nat, k: nat, k': nat, i: nat)
    requires q <= |s| && k == RunEnd(s, q, NotSlash)
    requires SegmentPath(s, q, k', i)
    ensures k' == k
  {
  }

  lemma SegmentFormFacts(s: string, q: nat, k: nat, e: nat, found: Option<nat>)
    requires q <= |s| && k == RunEnd(s, q, NotSlash) && q < k < |s|
    requires e == RunEnd(s, k + 1, NotLineTerminator)
    requires found == LastWhere(k + 2, e, SlashBeforeId(s))
    ensures found.Some? ==> SegmentPath(s, q, k, found.value + 1) && IdAt(s, found.value + 1)
    ensures found.Some? ==> forall k': nat, i: nat :: found.value + 1 < i && SegmentPath(s, q, k', i) ==> !IdAt(s, i)
    ensures found.None? ==> forall k': nat, i: nat :: SegmentPath(s, q, k', i) ==> !IdAt(s, i)
  {
    forall k': nat, i: nat | SegmentPath(s, q, k', i) && IdAt(s, i)
      ensures k + 2 <= i - 1 < e && SlashBeforeId(s)(i - 1)
    {
      SegmentEndsAtFirstSlash(s, q, k, k', i);
    }
  }

  lemma SegmentFormNone(s: string, q: nat, k: nat)
    requires q <= |s| && k == RunEnd(s, q, NotSlash) && !(q < k < |s|)
    ensures forall k': nat, i: nat :: !SegmentPath(s, q, k', i)
  {
    forall k': nat, i: nat ensures !SegmentPath(s, q, k', i) {
      if SegmentPath(s, q, k', i) {
        SegmentEndsAtFirstSlash(s, q, k, k', i);
      }
    }
  }

  /** The last alternative after `youtube.com/`, anchored at `q`: the greedy
      `.*` makes the LAST `?v=` or `&v=` on the line followed by an id win. */
  function ParamForm(s: string, q: nat): (r: Option<nat>)
    requires q <= |s|
    ensures r.Some? ==> ParamPath(s, q, r.value) && IdAt(s, r.value)
    ensures r.Some? ==> forall i: nat :: r.value < i && ParamPath(s, q, i) ==> !IdAt(s, i)
    ensures r.None? ==> forall i: nat :: ParamPath(s, q, i) ==> !IdAt(s, i)
  {
    var e := RunEnd(s, q, NotLineTerminator);
    var found := LastWhere(q, e, ParamBeforeId(s));
    ParamFormFacts(s, q, e);
    if found.Some? then Some(found.value + 3) else None
  }

  /** Every query-parameter match followed by an id is one `ParamBeforeId`
      finds on the line. */
  lemma ParamFormFacts(s: string, q: nat, e: nat)
    requires q <= |s| && e == RunEnd(s, q, NotLineTerminator)
    ensures forall i: nat :: ParamPath(s, q, i) && IdAt(s, i) ==> q <= i - 3 < e && ParamBeforeId(s)(i - 3)
  {
  }

  /** `?v=` or `&v=` at `j` with an id right after it. */
  function ParamBeforeId(s: string): nat -> bool {
    (j: nat) => j + 2 < |s| && (s[j] == '?' || s[j] == '&') && s[j + 1] == 'v' && s[j + 2] == '=' && IdAt(s, j + 3)
  }

  /** No path-segment match after `q` is followed by an id. */
  ghost predicate NoSegmentId(s: string, q: nat) {
    forall k: nat, i: nat :: SegmentPath(s, q, k, i) ==> !IdAt(s, i)
  }

  /** The path-segment alternative yields the id at `i`: the last segment
      match that is followed by an id, as the greedy `.+` backtracks. */
  ghost predicate SegmentPick(s: string, q: nat, i: nat) {
    (exists k: nat :: SegmentPath(s, q, k, i)) && IdAt(s, i)
    && forall k: nat, i': nat :: i < i' && SegmentPath(s, q, k, i') ==> !IdAt(s, i')
  }

  /** The query-parameter alternative yields the id at `i`: the last
      `?v=`/`&v=` followed by an id, as the greedy `.*` backtracks. */
  ghost predicate ParamPick(s: string, q: nat, i: nat) {
    ParamPath(s, q, i) && IdAt(s, i) && forall i': nat :: i < i' && ParamPath(s, q, i') ==> !IdAt(s, i')
  }

  /** The id position the group after `youtube.com/` yields at `q`: an
      alternative is only tried when every earlier one fails to reach an id. */
  ghost predicate DomainPick(s: string, q: nat, i: nat) {
    if !NoSegmentId(s, q) then SegmentPick(s, q, i)
    else if HasAt(s, q, "v/") && IdAt(s, q + 2) then i == q + 2
    else if HasAt(s, q, "embed/") && IdAt(s, q + 6) then i == q + 6
    else if HasAt(s, q, "e/") && IdAt(s, q + 2) then i == q + 2
    else ParamPick(s, q, i)
  }

  /** The alternation after `youtube.com/`, anchored at `q`, in the order the
      pattern lists it: path segments, then `v/`, `embed/`, `e/`, then a `v`
      query parameter. Returns where the id starts. */
  function DomainForm(s: string, q: nat): (r: Option<nat>)
    requires q <= |s|
    ensures r.Some? ==> DomainPath(s, q, r.value) && IdAt(s, r.value)
    ensures r.Some? ==> DomainPick(s, q, r.value)
    ensures r.None? ==> forall i: nat :: DomainPath(s, q, i) ==> !IdAt(s, i)
  {
    var seg := SegmentForm(s, q);
    if seg.Some? then seg
    else if HasAt(s, q, "v/") && IdAt(s, q + 2) then Some(q + 2)
    else if HasAt(s, q, "embed/") && IdAt(s, q + 6) then Some(q + 6)
    else if HasAt(s, q, "e/") && IdAt(s, q + 2) then Some(q + 2)
    else ParamForm(s, q)
  }

  /** The group after `youtube.com/` yields at most one id position. */
  lemma DomainPickUnique(s: string, q: nat, i: nat, j: nat)
    requires DomainPick(s, q, i) && DomainPick(s, q, j)
    ensures i == j
  {
    if !NoSegmentId(s, q) {
      assert !(i < j) && !(j < i);
    } else if !(HasAt(s, q, "v/") && IdAt(s, q + 2)) && !(HasAt(s, q, "embed/") && IdAt(s, q + 6))
              && !(HasAt(s, q, "e/") && IdAt(s, q + 2)) {
      assert !(i < j) && !(j < i);
    }
  }

  /** The capture JavaScript returns for the YouTube pattern anchored at `p`:
      after `youtube.com/`, the id the group yields; after `youtu.be/`, the
      eleven characters that follow. */
  ghost predicate YouTubePick(s: string, p: nat, id: string) {
    || (HasAt(s, p, "youtube.com/") && exists i: nat :: IdAt(s, i) && DomainPick(s, p + 12, i) && id == s[i..i + YouTubeIdLength])
    || (HasAt(s, p, "youtu.be/") && IdAt(s, p + 9) && id == s[p + 9..p + 9 + YouTubeIdLength])
  }

  /** At one position the YouTube pattern returns at most one capture. */
  lemma YouTubePickUnique(s: string, p: nat, a: string, b: string)
    requires YouTubePick(s, p, a) && YouTubePick(s, p, b)
    ensures a == b
  {
    if HasAt(s, p, "youtube.com/") {
      assert !HasAt(s, p, "youtu.be/") by {
        assert s[p + 5] == "youtube.com/"[5];
      }
      var i: nat :| IdAt(s, i) && DomainPick(s, p + 12, i) && a == s[i..i + YouTubeIdLength];
      var j: nat :| IdAt(s, j) && DomainPick(s, p + 12, j) && b == s[j..j + YouTubeIdLength];
      DomainPickUnique(s, p + 12, i, j);
    }
  }

  /** The YouTube pattern anchored at `p`; the two leading alternatives
      `youtube.com/` and `youtu.be/` cannot both start at one position. */
  function YouTubeAt(s: string, p: nat): (r: Option<string>)
    ensures r.Some? ==> YouTubeMatch(s, p, r.value) && YouTubePick(s, p, r.value)
    ensures r.None? ==> forall id :: !YouTubeMatch(s, p, id)
  {
    if HasAt(s, p, "youtube.com/") then
      match DomainForm(s, p + 12)
      case Some(i) =>
        assert YouTubeLead(s, p, i);
        Some(s[i..i + YouTubeIdLength])
      case None =>
        assert !HasAt(s, p, "youtu.be/") by {
          assert s[p + 5] == "youtube.com/"[5];
        }
        None
    else if HasAt(s, p, "youtu.be/") && IdAt(s, p + 9) then
      assert YouTubeLead(s, p, p + 9);
      Some(s[p + 9..p + 9 + YouTubeIdLength])
    else None
  }

  // ---------------------------------------------------------------------
  // Vimeo: vimeo\.com\/(?:video\/)?(\d+)
  // ---------------------------------------------------------------------

  /** `vimeo\.com\/(?:video\/)?` matches `s[p..i]`. */
  ghost predicate VimeoLead(s: string, p: nat, i: nat) {
    HasAt(s, p, "vimeo.com/") && (i == p + 10 || (HasAt(s, p + 10, "video/") && i == p + 16))
  }

  /** The Vimeo pattern can match starting at `p`, capturing `id`: the
      greedy `\d+` at the end takes the longest run of digits. */
  ghost predicate VimeoMatch(s: string, p: nat, id: string) {
    exists i: nat :: VimeoLead(s, p, i) && i < |s| && IsDigit(s[i])
                     && id == s[i..RunEnd(s, i, IsDigit)]
  }

  /** The Vimeo pattern anchored at `p`: the optional `video/` is tried first. */
  function VimeoAt(s: string, p: nat): (r: Option<string>)
    ensures r.Some? ==> VimeoMatch(s, p, r.value)
    ensures r.None? ==> forall id :: !VimeoMatch(s, p, id)
  {
    if !HasAt(s, p, "vimeo.com/") then None
    else if HasAt(s, p, "vimeo.com/") && HasAt(s, p + 10, "video/") && p + 16 < |s| && IsDigit(s[p + 16]) then
      assert VimeoLead(s, p, p + 16);
      Some(s[p + 16..RunEnd(s, p + 16, IsDigit)])
    else if p + 10 < |s| && IsDigit(s[p + 10]) then
      assert VimeoLead(s, p, p + 10);
      Some(s[p + 10..RunEnd(s, p + 10, IsDigit)])
    else
      assert HasAt(s, p + 10, "video/") ==> !IsDigit(s[p + 10]) by {
        if HasAt(s, p + 10, "video/") {
          assert s[p + 10] == "video/"[0];
        }
      }
      None
  }

  // ---------------------------------------------------------------------
  // Loom: loom\.com\/share\/([a-zA-Z0-9]+)
  // ---------------------------------------------------------------------

  /** The Loom pattern can match starting at `p`, capturing `id`: the
      longest run of ASCII letters and digits after `loom.com/share/`. */
  ghost predicate LoomMatch(s: string, p: nat, id: string) {
    HasAt(s, p, "loom.com/share/") && p + 15 < |s| && IsAlnum(s[p + 15])
    && id == s[p + 15..RunEnd(s, p + 15, IsAlnum)]
  }

  /** The Loom pattern anchored at `p`. */
  function LoomAt(s: string, p: nat): (r: Option<string>)
    ensures r.Some? ==> LoomMatch(s, p, r.value)
    ensures r.None? ==> forall id :: !LoomMatch(s, p, id)
  {
    if HasAt(s, p, "loom.com/share/") && p + 15 < |s| && IsAlnum(s[p + 15]) then
      Some(s[p + 15..RunEnd(s, p + 15, IsAlnum)])
    else None
  }

  // ---------------------------------------------------------------------
  // The resolver and the component
  // ---------------------------------------------------------------------

  /** The pattern of one provider matches somewhere in `url`. */
  ghost predicate AnyYouTube(url: string) { exists p: nat, id :: YouTubeMatch(url, p, id) }
  ghost predicate AnyVimeo(url: string) { exists p: nat, id :: VimeoMatch(url, p, id) }
  ghost predicate AnyLoom(url: string) { exists p: nat, id :: LoomMatch(url, p, id) }

  /** The YouTube pattern searched for anywhere in `url`: the id captured at
      the leftmost position where the pattern matches, the one the
      alternatives' priority picks there. */
  function FirstYouTube(url: string): (r: Option<string>)
    ensures r.Some? <==> AnyYouTube(url)
    ensures r.Some? ==> exists p: nat :: YouTubeMatch(url, p, r.value) && YouTubePick(url, p, r.value)
                                       && forall q: nat, id :: q < p ==> !YouTubeMatch(url, q, id)
  {
    var found := Leftmost(url, 0, YouTubeAt);
    if found.Some? then
      var p := found.value.0;
      assert YouTubeMatch(url, p, found.value.1) && YouTubePick(url, p, found.value.1);
      assert forall q: nat, id :: q < p ==> !YouTubeMatch(url, q, id) by {
        forall q: nat, id | q < p ensures !YouTubeMatch(url, q, id) {
          assert YouTubeAt(url, q).None?;
        }
      }
      Some(found.value.1)
    else
      assert !AnyYouTube(url) by {
        forall p: nat, id ensures !YouTubeMatch(url, p, id) {
          assert YouTubeAt(url, p).None?;
        }
      }
      None
  }

  /** The Vimeo pattern searched for anywhere in `url`. */
  function FirstVimeo(url: string): (r: Option<string>)
    ensures r.Some? <==> AnyVimeo(url)
    ensures r.Some? ==> exists p: nat :: VimeoMatch(url, p, r.value)
                                       && forall q: nat, id :: q < p ==> !VimeoMatch(url, q, id)
  {
    var found := Leftmost(url, 0, VimeoAt);
    if found.Some? then
      var p := found.value.0;
      assert VimeoMatch(url, p, found.value.1);
      assert forall q: nat, id :: q < p ==> !VimeoMatch(url, q, id) by {
        forall q: nat, id | q < p ensures !VimeoMatch(url, q, id) {
          assert VimeoAt(url, q).None?;
        }
      }
      Some(found.value.1)
    else
      assert !AnyVimeo(url) by {
        forall p: nat, id ensures !VimeoMatch(url, p, id) {
          assert VimeoAt(url, p).None?;
        }
      }
      None
  }

  /** The Loom pattern searched for anywhere in `url`. */
  function FirstLoom(url: string): (r: Option<string>)
    ensures r.Some? <==> AnyLoom(url)
    ensures r.Some? ==> exists p: nat :: LoomMatch(url, p, r.value)
                                       && forall q: nat, id :: q < p ==> !LoomMatch(url, q, id)
  {
    var found := Leftmost(url, 0, LoomAt);
    if found.Some? then
      var p := found.value.0;
      assert LoomMatch(url, p, found.value.1);
      assert forall q: nat, id :: q < p ==> !LoomMatch(url, q, id) by {
        forall q: nat, id | q < p ensures !LoomMatch(url, q, id) {
          assert LoomAt(url, q).None?;
        }
      }
      Some(found.value.1)
    else
      assert !AnyLoom(url) by {
        forall p: nat, id ensures !LoomMatch(url, p, id) {
          assert LoomAt(url, p).None?;
        }
      }
      None
  }

  /** `getEmbedUrl`: YouTube, then Vimeo, then Loom; the first provider
      whose pattern occurs anywhere in the URL decides, and the id it
      captures goes after that provider's embed prefix. `None` is `null`. */
  function GetEmbedUrl(url: string): (r: Option<string>)
    ensures r.None? <==> !AnyYouTube(url) && !AnyVimeo(url) && !AnyLoom(url)
  {
    match FirstYouTube(url)
    case Some(id) => Some(YouTubeEmbed + id)
    case None =>
      match FirstVimeo(url)
      case Some(id) => Some(VimeoEmbed + id)
      case None =>
        match FirstLoom(url)
        case Some(id) => Some(LoomEmbed + id)
        case None => None
  }

  /** The providers are tried in the order YouTube, Vimeo, Loom: the first
      whose pattern occurs anywhere in the URL decides the result, with the id
      captured at its leftmost match; `null` exactly when none occurs. */
  lemma ProviderOrder(url: string)
    ensures AnyYouTube(url) ==>
      exists p: nat, id :: GetEmbedUrl(url) == Some(YouTubeEmbed + id) && YouTubeMatch(url, p, id)
                           && YouTubePick(url, p, id)
                           && forall q: nat, id' :: q < p ==> !YouTubeMatch(url, q, id')
    ensures !AnyYouTube(url) && AnyVimeo(url) ==>
      exists p: nat, id :: GetEmbedUrl(url) == Some(VimeoEmbed + id) && VimeoMatch(url, p, id)
                           && forall q: nat, id' :: q < p ==> !VimeoMatch(url, q, id')
    ensures !AnyYouTube(url) && !AnyVimeo(url) && AnyLoom(url) ==>
      exists p: nat, id :: GetEmbedUrl(url) == Some(LoomEmbed + id) && LoomMatch(url, p, id)
                           && forall q: nat, id' :: q < p ==> !LoomMatch(url, q, id')
    ensures GetEmbedUrl(url).None? <==> !AnyYouTube(url) && !AnyVimeo(url) && !AnyLoom(url)
  {
    var y, v, l := FirstYouTube(url), FirstVimeo(url), FirstLoom(url);
    if y.Some? {
      var p: nat :| YouTubeMatch(url, p, y.value) && YouTubePick(url, p, y.value)
                    && forall q: nat, id :: q < p ==> !YouTubeMatch(url, q, id);
      assert GetEmbedUrl(url) == Some(YouTubeEmbed + y.value);
    } else if v.Some? {
      var p: nat :| VimeoMatch(url, p, v.value) && forall q: nat, id :: q < p ==> !VimeoMatch(url, q, id);
      assert GetEmbedUrl(url) == Some(VimeoEmbed + v.value);
    } else if l.Some? {
      var p: nat :| LoomMatch(url, p, l.value) && forall q: nat, id :: q < p ==> !LoomMatch(url, q, id);
      assert GetEmbedUrl(url) == Some(LoomEmbed + l.value);
    }
  }

  /** A YouTube capture is exactly eleven id characters. */
  lemma YouTubeIdShape(s: string, p: nat, id: string)
    requires YouTubeMatch(s, p, id)
    ensures |id| == YouTubeIdLength && forall k :: 0 <= k < |id| ==> IsIdChar(id[k])
  {
    var i: nat :| YouTubeLead(s, p, i) && IdAt(s, i) && id == s[i..i + YouTubeIdLength];
    assert forall k :: 0 <= k < |id| ==> id[k] == s[i + k];
  }

  /** A Vimeo capture is a non-empty run of digits. */
  lemma VimeoIdShape(s: string, p: nat, id: string)
    requires VimeoMatch(s, p, id)
    ensures |id| > 0 && forall k :: 0 <= k < |id| ==> IsDigit(id[k])
  {
    var i: nat :| VimeoLead(s, p, i) && i < |s| && IsDigit(s[i]) && id == s[i..RunEnd(s, i, IsDigit)];
    assert forall k :: 0 <= k < |id| ==> id[k] == s[i + k];
  }

  /** A Loom capture is a non-empty run of ASCII letters and digits. */
  lemma LoomIdShape(s: string, p: nat, id: string)
    requires LoomMatch(s, p, id)
    ensures |id| > 0 && forall k :: 0 <= k < |id| ==> IsAlnum(id[k])
  {
    assert forall k :: 0 <= k < |id| ==> id[k] == s[p + 15 + k];
  }

  /** A string starts with at most one of the three embed prefixes. */
  lemma EmbedPrefixesDistinct(r: string)
    ensures HasAt(r, 0, YouTubeEmbed) ==> !HasAt(r, 0, VimeoEmbed) && !HasAt(r, 0, LoomEmbed)
    ensures HasAt(r, 0, VimeoEmbed) ==> !HasAt(r, 0, LoomEmbed)
  {
    if HasAt(r, 0, YouTubeEmbed) {
      assert r[8] == YouTubeEmbed[8] && r[12] == YouTubeEmbed[12];
    }
    if HasAt(r, 0, VimeoEmbed) {
      assert r[8] == VimeoEmbed[8] == 'p';
      assert LoomEmbed[8] == 'w';
    }
  }

  /** Every embed URL starts with exactly one of the three embed prefixes,
      and what follows the prefix is an id of that provider's shape: eleven
      id characters for YouTube, digits for Vimeo, letters and digits for Loom. */
  lemma EmbedUrlShape(url: string)
    requires GetEmbedUrl(url).Some?
    ensures var r := GetEmbedUrl(url).value;
      (if HasAt(r, 0, YouTubeEmbed) then 1 else 0) + (if HasAt(r, 0, VimeoEmbed) then 1 else 0)
      + (if HasAt(r, 0, LoomEmbed) then 1 else 0) == 1
    ensures var r := GetEmbedUrl(url).value;
      HasAt(r, 0, YouTubeEmbed) ==>
        var id := r[|YouTubeEmbed|..]; |id| == YouTubeIdLength && forall k :: 0 <= k < |id| ==> IsIdChar(id[k])
    ensures var r := GetEmbedUrl(url).value;
      HasAt(r, 0, VimeoEmbed) ==>
        var id := r[|VimeoEmbed|..]; |id| > 0 && forall k :: 0 <= k < |id| ==> IsDigit(id[k])
    ensures var r := GetEmbedUrl(url).value;
      HasAt(r, 0, LoomEmbed) ==>
        var id := r[|LoomEmbed|..]; |id| > 0 && forall k :: 0 <= k < |id| ==> IsAlnum(id[k])
  {
    var r := GetEmbedUrl(url).value;
    EmbedPrefixesDistinct(r);
    var y := FirstYouTube(url);
    if y.Some? {
      YouTubeResultShape(url);
    } else if FirstVimeo(url).Some? {
      VimeoResultShape(url);
    } else {
      LoomResultShape(url);
    }
  }

  lemma YouTubeResultShape(url: string)
    requires FirstYouTube(url).Some?
    ensures var r := GetEmbedUrl(url); r.Some? && HasAt(r.value, 0, YouTubeEmbed)
    ensures var id := GetEmbedUrl(url).value[|YouTubeEmbed|..];
      |id| == YouTubeIdLength && forall k :: 0 <= k < |id| ==> IsIdChar(id[k])
  {
    var id := FirstYouTube(url).value;
    var p: nat :| YouTubeMatch(url, p, id);
    YouTubeIdShape(url, p, id);
    assert (YouTubeEmbed + id)[|YouTubeEmbed|..] == id;
  }

  lemma VimeoResultShape(url: string)
    requires FirstYouTube(url).None? && FirstVimeo(url).Some?
    ensures var r := GetEmbedUrl(url); r.Some? && HasAt(r.value, 0, VimeoEmbed)
    ensures var id := GetEmbedUrl(url).value[|VimeoEmbed|..];
      |id| > 0 && forall k :: 0 <= k < |id| ==> IsDigit(id[k])
  {
    var id := FirstVimeo(url).value;
    var p: nat :| VimeoMatch(url, p, id);
    VimeoIdShape(url, p, id);
    assert (VimeoEmbed + id)[|VimeoEmbed|..] == id;
  }

  lemma LoomResultShape(url: string)
    requires FirstYouTube(url).None? && FirstVimeo(url).None? && FirstLoom(url).Some?
    ensures var r := GetEmbedUrl(url); r.Some? && HasAt(r.value, 0, LoomEmbed)
    ensures var id := GetEmbedUrl(url).value[|LoomEmbed|..];
      |id| > 0 && forall k :: 0 <= k < |id| ==> IsAlnum(id[k])
  {
    var id := FirstLoom(url).value;
    var p: nat :| LoomMatch(url, p, id);
    LoomIdShape(url, p, id);
    assert (LoomEmbed + id)[|LoomEmbed|..] == id;
  }

  /** Matching is unanchored: eleven id characters after `youtu.be/` make
      any URL a YouTube URL, whatever text surrounds them. */
  lemma YouTuBeAnywhere(before: string, id: string, after: string)
    requires |id| == YouTubeIdLength && forall k :: 0 <= k < |id| ==> IsIdChar(id[k])
    ensures var r := GetEmbedUrl(before + "youtu.be/" + id + after); r.Some? && HasAt(r.value, 0, YouTubeEmbed)
  {
    var s := before + "youtu.be/" + id + after;
    var p := |before|;
    assert s[p..p + 9] == "youtu.be/";
    assert YouTubeLead(s, p, p + 9);
    assert forall k :: p + 9 <= k < p + 20 ==> s[k] == id[k - p - 9];
    assert YouTubeMatch(s, p, s[p + 9..p + 20]);
    ProviderOrder(s);
  }

  /** A literal can only occur where its first character does. */
  lemma NotAtWithoutFirstChar(s: string, p: nat, lit: string)
    requires |lit| > 0 && (p < |s| ==> s[p] != lit[0])
    ensures !HasAt(s, p, lit)
  {
    if p + |lit| <= |s| {
      assert s[p..p + |lit|][0] == s[p];
    }
  }

  /** Neither YouTube marker can start where there is no `y`. */
  lemma NoYouTubeWithoutY(s: string, p: nat, id: string)
    requires p < |s| ==> s[p] != 'y'
    ensures !YouTubeMatch(s, p, id)
  {
    NotAtWithoutFirstChar(s, p, "youtube.com/");
    NotAtWithoutFirstChar(s, p, "youtu.be/");
  }

  /** The Vimeo marker cannot start where there is no `v`. */
  lemma NoVimeoWithoutV(s: string, p: nat, id: string)
    requires p < |s| ==> s[p] != 'v'
    ensures !VimeoMatch(s, p, id)
  {
    NotAtWithoutFirstChar(s, p, "vimeo.com/");
  }

  /** The Loom marker cannot start where there is no `l`. */
  lemma NoLoomWithoutL(s: string, p: nat, id: string)
    requires p < |s| ==> s[p] != 'l'
    ensures !LoomMatch(s, p, id)
  {
    NotAtWithoutFirstChar(s, p, "loom.com/share/");
  }

  /** The capture the priority picks is one the pattern allows. */
  lemma PickIsMatch(s: string, p: nat, id: string)
    requires YouTubePick(s, p, id)
    ensures YouTubeMatch(s, p, id)
  {
    if HasAt(s, p, "youtube.com/") && exists i: nat :: IdAt(s, i) && DomainPick(s, p + 12, i) && id == s[i..i + YouTubeIdLength] {
      var i: nat :| IdAt(s, i) && DomainPick(s, p + 12, i) && id == s[i..i + YouTubeIdLength];
      assert YouTubeLead(s, p, i);
    } else {
      assert YouTubeLead(s, p, p + 9);
    }
  }

  /** The capture the alternatives' priority picks at a position with no
      YouTube match before it decides the embed URL. */
  lemma YouTubeDecides(url: string, p: nat, id: string)
    requires YouTubePick(url, p, id)
    requires forall q: nat, id' :: q < p ==> !YouTubeMatch(url, q, id')
    ensures GetEmbedUrl(url) == Some(YouTubeEmbed + id)
  {
    PickIsMatch(url, p, id);
    var y := FirstYouTube(url).value;
    var p': nat :| YouTubeMatch(url, p', y) && YouTubePick(url, p', y)
                   && forall q: nat, id' :: q < p' ==> !YouTubeMatch(url, q, id');
    assert !(p < p') && !(p' < p);
    YouTubePickUnique(url, p, id, y);
  }

  /** At one position the Vimeo pattern allows one capture only: when
      `video/` follows `vimeo.com/`, its `v` is no digit, so the lead
      without it cannot reach the digits. */
  lemma VimeoUnique(s: string, p: nat, a: string, b: string)
    requires VimeoMatch(s, p, a) && VimeoMatch(s, p, b)
    ensures a == b
  {
    var i: nat :| VimeoLead(s, p, i) && i < |s| && IsDigit(s[i]) && a == s[i..RunEnd(s, i, IsDigit)];
    var j: nat :| VimeoLead(s, p, j) && j < |s| && IsDigit(s[j]) && b == s[j..RunEnd(s, j, IsDigit)];
    if HasAt(s, p + 10, "video/") {
      assert s[p + 10] == "video/"[0];
    }
  }

  /** Without any YouTube match, a Vimeo match at `p` with no match before
      it decides the embed URL. */
  lemma VimeoDecides(url: string, p: nat, id: string)
    requires !AnyYouTube(url)
    requires VimeoMatch(url, p, id)
    requires forall q: nat, id' :: q < p ==> !VimeoMatch(url, q, id')
    ensures GetEmbedUrl(url) == Some(VimeoEmbed + id)
  {
    var v := FirstVimeo(url).value;
    var p': nat :| VimeoMatch(url, p', v) && forall q: nat, id' :: q < p' ==> !VimeoMatch(url, q, id');
    assert !(p < p') && !(p' < p);
    VimeoUnique(url, p, id, v);
  }

  /** `https://youtu.be/abc12345678`. */
  const ShortLink := "https://" + "youtu.be/" + "abc12345678"

  lemma ShortLinkPick()
    ensures YouTubePick(ShortLink, 8, "abc12345678")
  {
    assert ShortLink[8..17] == "youtu.be/";
    assert ShortLink[17..28] == "abc12345678";
  }

  lemma ShortLinkSchemeHasNoY(q: nat)
    requires q < 8
    ensures ShortLink[q] != 'y'
  {
    assert ShortLink[..8] == "https://";
    assert ShortLink[q] == ShortLink[..8][q];
  }

  lemma ShortLinkNothingBefore()
    ensures forall q: nat, id :: q < 8 ==> !YouTubeMatch(ShortLink, q, id)
  {
    forall q: nat, id | q < 8 ensures !YouTubeMatch(ShortLink, q, id) {
      ShortLinkSchemeHasNoY(q);
      NoYouTubeWithoutY(ShortLink, q, id);
    }
  }

  /** A short link: `https://youtu.be/abc12345678` embeds `abc12345678`. */
  lemma ExampleShortLink(url: string)
    requires url == ShortLink
    ensures GetEmbedUrl(url) == Some("https://www.youtube.com/embed/abc12345678")
  {
    assert YouTubeEmbed + "abc12345678" == "https://www.youtube.com/embed/abc12345678";
    ShortLinkPick();
    ShortLinkNothingBefore();
    YouTubeDecides(url, 8, "abc12345678");
  }

  /** `https://youtube.com/embed/AAAAAAAAAAA?v=BBBBBBBBBBB`. */
  const EmbedThenParam := "https://" + "youtube.com/" + "embed/" + "AAAAAAAAAAA" + "?v=" + "BBBBBBBBBBB"

  lemma EmbedThenParamOneSlash(m: nat)
    requires 20 <= m < |EmbedThenParam| && EmbedThenParam[m] == '/'
    ensures m == 25
  {
    EmbedThenParamMarkers();
    EmbedThenParamIds();
    EmbedThenParamQuery();
  }

  /** Only one slash follows `youtube.com/`, so the path-segment alternative
      reaches no id. */
  lemma EmbedThenParamNoSegment()
    ensures NoSegmentId(EmbedThenParam, 20)
  {
    forall k: nat, i: nat | SegmentPath(EmbedThenParam, 20, k, i)
      ensures false
    {
      EmbedThenParamOneSlash(k);
      EmbedThenParamOneSlash(i - 1);
    }
  }

  lemma EmbedThenParamMarkers()
    ensures HasAt(EmbedThenParam, 8, "youtube.com/") && HasAt(EmbedThenParam, 20, "embed/")
    ensures !HasAt(EmbedThenParam, 20, "v/")
  {
    assert EmbedThenParam[8..20] == "youtube.com/";
    assert EmbedThenParam[20..26] == "embed/";
    assert EmbedThenParam[20] == 'e';
  }

  lemma EmbedThenParamIds()
    ensures IdAt(EmbedThenParam, 26) && EmbedThenParam[26..37] == "AAAAAAAAAAA"
    ensures IdAt(EmbedThenParam, 40) && EmbedThenParam[40..51] == "BBBBBBBBBBB"
  {
    assert EmbedThenParam[26..37] == "AAAAAAAAAAA";
    assert EmbedThenParam[40..51] == "BBBBBBBBBBB";
  }

  lemma EmbedThenParamQuery()
    ensures ParamPath(EmbedThenParam, 20, 40)
  {
    assert EmbedThenParam[37..40] == "?v=";
  }

  lemma EmbedThenParamScheme()
    ensures forall q: nat :: q < 8 ==> EmbedThenParam[q] != 'y'
  {
    assert EmbedThenParam[..8] == "https://";
    assert forall q: nat :: q < 8 ==> EmbedThenParam[q] == EmbedThenParam[..8][q];
  }

  /** The alternatives are tried in the order the pattern lists them: in
      `https://youtube.com/embed/AAAAAAAAAAA?v=BBBBBBBBBBB` the pattern can
      capture either id, and the `embed/` alternative, listed before the
      query parameter, decides. */
  lemma ExampleEmbedBeforeParam(url: string)
    requires url == EmbedThenParam
    ensures YouTubeMatch(url, 8, "BBBBBBBBBBB")
    ensures GetEmbedUrl(url) == Some("https://www.youtube.com/embed/AAAAAAAAAAA")
  {
    EmbedThenParamMarkers();
    EmbedThenParamIds();
    EmbedThenParamQuery();
    EmbedThenParamScheme();
    assert YouTubeLead(url, 8, 40);
    EmbedThenParamNoSegment();
    assert DomainPick(url, 20, 26);
    assert YouTubePick(url, 8, "AAAAAAAAAAA");
    forall q: nat, id | q < 8 ensures !YouTubeMatch(url, q, id) {
      NoYouTubeWithoutY(url, q, id);
    }
    assert YouTubeEmbed + "AAAAAAAAAAA" == "https://www.youtube.com/embed/AAAAAAAAAAA";
    YouTubeDecides(url, 8, "AAAAAAAAAAA");
  }

  const VimeoPage := "https://vimeo.com/12345"

  lemma VimeoPageLetters(q: nat)
    requires q < |VimeoPage|
    ensures VimeoPage[q] != 'y'
    ensures q < 8 ==> VimeoPage[q] != 'v'
  {
    assert VimeoPage[..8] == "https://";
    assert q < 8 ==> VimeoPage[q] == VimeoPage[..8][q];
    assert 'y' !in VimeoPage;
  }

  lemma VimeoPageMatch()
    ensures VimeoMatch(VimeoPage, 8, "12345")
  {
    assert VimeoPage[8..18] == "vimeo.com/";
    assert VimeoLead(VimeoPage, 8, 18);
    assert RunEnd(VimeoPage, 18, IsDigit) == 23;
    assert VimeoPage[18..23] == "12345";
  }

  lemma VimeoPageOnly()
    ensures !AnyYouTube(VimeoPage)
    ensures forall q: nat, id :: q < 8 ==> !VimeoMatch(VimeoPage, q, id)
  {
    forall q: nat, id ensures !YouTubeMatch(VimeoPage, q, id) && (q < 8 ==> !VimeoMatch(VimeoPage, q, id)) {
      if q < |VimeoPage| {
        VimeoPageLetters(q);
      }
      NoYouTubeWithoutY(VimeoPage, q, id);
      if q < 8 {
        NoVimeoWithoutV(VimeoPage, q, id);
      }
    }
  }

  /** A Vimeo page: `https://vimeo.com/12345` embeds video `12345`. */
  lemma ExampleVimeo(url: string)
    requires url == VimeoPage
    ensures GetEmbedUrl(url) == Some("https://player.vimeo.com/video/12345")
  {
    assert VimeoEmbed + "12345" == "https://player.vimeo.com/video/12345";
    VimeoPageMatch();
    VimeoPageOnly();
    VimeoDecides(url, 8, "12345");
  }

  const OtherSite := "https://example.com/video"

  lemma OtherSiteMatchesNothing()
    ensures !AnyYouTube(OtherSite) && !AnyVimeo(OtherSite) && !AnyLoom(OtherSite)
  {
    assert 'y' !in OtherSite;
    assert forall q :: 0 <= q < 20 ==> OtherSite[q] != 'v';
    assert forall q :: 0 <= q < 13 ==> OtherSite[q] != 'l';
    forall q: nat, id
      ensures !YouTubeMatch(OtherSite, q, id) && !VimeoMatch(OtherSite, q, id) && !LoomMatch(OtherSite, q, id)
    {
      NoYouTubeWithoutY(OtherSite, q, id);
      if q < 20 {
        NoVimeoWithoutV(OtherSite, q, id);
      }
      if q < 13 {
        NoLoomWithoutL(OtherSite, q, id);
      }
    }
  }

  /** An unsupported site: `https://example.com/video` gives `null`. */
  lemma ExampleUnsupported(url: string)
    requires url == OtherSite
    ensures GetEmbedUrl(url) == None
  {
    OtherSiteMatchesNothing();
    ProviderOrder(url);
  }

  /** What the component renders. */
  datatype View =
    | InvalidUrl(message: string)
    | Player(src: string, title: string)

  /** `VideoEmbed`: the player with the embed URL, titled `title` or, when
      no title is passed, "Video"; the invalid-URL message when
      `getEmbedUrl` gives `null`. */
  function Render(url: string, title: Option<string>): (v: View)
    ensures v.InvalidUrl? <==> !AnyYouTube(url) && !AnyVimeo(url) && !AnyLoom(url)
    ensures v.InvalidUrl? ==> v.message == InvalidUrlText
    ensures v.Player? ==> Some(v.src) == GetEmbedUrl(url)
    ensures v.Player? ==> v.title == (if title.Some? then title.value else "Video")
  {
    match GetEmbedUrl(url)
    case None => InvalidUrl(InvalidUrlText)
    case Some(src) => Player(src, if title.Some? then title.value else "Video")
  }
}
