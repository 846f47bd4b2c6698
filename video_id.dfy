/**
 * `extractId` in video.js: the video id typed or pasted into the player's input
 * field. A YouTube watch, shorts or short-link URL gives its eleven-character
 * id; anything else is passed on trimmed, and an empty input gives nothing.
 */
module VideoId {

  import opened Text
  import opened Optional

  /** `[\w-]`: ASCII letters, digits, `_` and `-`. */
  predicate IsIdChar(c: char)
  {
    ('a' <= c <= 'z') || ('A' <= c <= 'Z') || ('0' <= c <= '9') || c == '_' || c == '-'
  }

  predicate IsIdAt(s: string, p: nat)
  {
    p + 11 <= |s| && forall k :: p <= k < p + 11 ==> IsIdChar(s[k])
  }

  predicate IsId(id: string)
  {
    |id| == 11 && IsIdAt(id, 0)
  }

  /** `lit` occurs in `s` at position `p`. */
  predicate At(s: string, p: nat, lit: string)
  {
    p + |lit| <= |s| && s[p..p + |lit|] == lit
  }

  /** Length taken by `(?:https?:\/\/)?` at `p`. */
  function SchemeLen(s: string, p: nat): nat
  {
    if At(s, p, "https://") then 8 else if At(s, p, "http://") then 7 else 0
  }

  /** Length taken by `(?:www\.)?` at `p`. */
  function WwwLen(s: string, p: nat): nat
  {
    if At(s, p, "www.") then 4 else 0
  }

  /** Length taken by `(?:youtube\.com\/(?:watch\?v=|shorts\/)|youtu\.be\/)` at `p`, if it matches. */
  function HostLen(s: string, p: nat): Option<nat>
  {
    if At(s, p, "youtube.com/watch?v=") then Some(20)
    else if At(s, p, "youtube.com/shorts/") then Some(19)
    else if At(s, p, "youtu.be/") then Some(9)
    else None
  }

  /**
   * The pattern matched at position `p`, giving the captured id. Every optional
   * part and every alternative starts with a different literal, so at most one
   * way of matching is open at each point and no backtracking can change it.
   */
  function MatchIdAt(s: string, p: nat): Option<string>
  {
    var q := p + SchemeLen(s, p);
    var h := q + WwwLen(s, q);
    match HostLen(s, h)
    case None => None
    case Some(n) => if IsIdAt(s, h + n) then Some(s[h + n..h + n + 11]) else None
  }

  /** The leftmost match from position `p` on. */
  function FindId(s: string, p: nat): (r: Option<string>)
    ensures r.Some? ==> IsId(r.value)
    ensures r.Some? ==>
      exists j :: p <= j < |s| && MatchIdAt(s, j) == r && forall k :: p <= k < j ==> MatchIdAt(s, k).None?
    ensures r.None? ==> forall j :: p <= j < |s| ==> MatchIdAt(s, j).None?
    decreases |s| - p
  {
    if p >= |s| then None
    else if MatchIdAt(s, p).Some? then MatchIdAt(s, p)
    else FindId(s, p + 1)
  }

  /** `extractId(url)`. */
  function ExtractId(url: string): (r: Option<string>)
    ensures r.None? <==> url == []
    ensures r.Some? ==> IsId(r.value) || r.value == Trim(url)
  {
    if url == [] then None
    else match FindId(url, 0)
      case Some(id) => Some(id)
      case None => Some(Trim(url))
  }

  // ---------------------------------------------------------------------

  /** The ways a link may begin before the host: scheme and `www.` are each optional. */
  predicate IsSchemeForm(prefix: string)
  {
    prefix == "" || prefix == "www." || prefix == "http://" || prefix == "http://www."
    || prefix == "https://" || prefix == "https://www."
  }

  /** The three host-and-path forms the pattern accepts. */
  predicate IsHostForm(host: string)
  {
    host == "youtube.com/watch?v=" || host == "youtube.com/shorts/" || host == "youtu.be/"
  }

  lemma NotAt(s: string, p: nat, lit: string, k: nat)
    requires k < |lit| && p + k < |s| && s[p + k] != lit[k]
    ensures !At(s, p, lit)
  {
  }

  lemma AtOf(a: string, lit: string, b: string)
    ensures At(a + lit + b, |a|, lit)
  {
    assert (a + lit + b)[|a|..|a| + |lit|] == lit;
  }

  /** Scheme and `www.` take exactly the written prefix when the host follows it. */
  lemma PrefixTaken(prefix: string, host: string, id: string)
    requires IsSchemeForm(prefix)
    requires host != [] && host[0] == 'y'
    ensures SchemeLen(prefix + host + id, 0) + WwwLen(prefix + host + id, SchemeLen(prefix + host + id, 0)) == |prefix|
  {
    var s := prefix + host + id;
    assert s[|prefix|] == 'y';
    if prefix == "" || prefix == "www." {
      NoSchemeTaken(prefix, s);
    } else if prefix == "http://" || prefix == "http://www." {
      SchemeTaken(prefix, "http://", s);
    } else {
      SchemeTaken(prefix, "https://", s);
    }
  }

  lemma NoSchemeTaken(prefix: string, s: string)
    requires prefix == "" || prefix == "www."
    requires |prefix| < |s| && s[..|prefix|] == prefix && s[|prefix|] == 'y'
    ensures SchemeLen(s, 0) + WwwLen(s, SchemeLen(s, 0)) == |prefix|
  {
    NotAt(s, 0, "https://", 0);
    NotAt(s, 0, "http://", 0);
    if prefix == "" {
      NotAt(s, 0, "www.", 0);
    } else {
      assert s[0..4] == "www.";
    }
  }

  lemma SchemeTaken(prefix: string, scheme: string, s: string)
    requires scheme == "http://" || scheme == "https://"
    requires prefix == scheme || prefix == scheme + "www."
    requires |prefix| < |s| && s[..|prefix|] == prefix && s[|prefix|] == 'y'
    ensures SchemeLen(s, 0) + WwwLen(s, SchemeLen(s, 0)) == |prefix|
  {
    var n := |scheme|;
    assert s[..n] == prefix[..n] == scheme;
    if scheme == "http://" {
      NotAt(s, 0, "https://", 4);
    }
    assert SchemeLen(s, 0) == n;
    if prefix == scheme {
      NotAt(s, n, "www.", 0);
    } else {
      assert s[n..n + 4] == prefix[n..n + 4] == "www.";
    }
  }

  /** The host part takes exactly the written host. */
  lemma HostTaken(a: string, host: string, t: string)
    requires IsHostForm(host)
    ensures HostLen(a + host + t, |a|) == Some(|host|)
  {
    var s := a + host + t;
    AtOf(a, host, t);
    if host == "youtube.com/shorts/" {
      NotAt(s, |a|, "youtube.com/watch?v=", 12);
    } else if host == "youtu.be/" {
      NotAt(s, |a|, "youtube.com/watch?v=", 5);
      NotAt(s, |a|, "youtube.com/shorts/", 5);
    }
  }

  lemma MatchOfParts(s: string, h: nat, n: nat, id: string)
    requires SchemeLen(s, 0) + WwwLen(s, SchemeLen(s, 0)) == h
    requires HostLen(s, h) == Some(n)
    requires h + n + 11 <= |s| && s[h + n..h + n + 11] == id && IsId(id)
    ensures MatchIdAt(s, 0) == Some(id)
  {
    var j := h + n;
    assert forall k :: j <= k < j + 11 ==> s[k] == id[k - j];
  }

  lemma MatchOfPrefix(prefix: string, host: string, id: string, rest: string)
    requires IsHostForm(host)
    requires IsSchemeForm(prefix)
    requires IsId(id)
    ensures MatchIdAt(prefix + host + id + rest, 0) == Some(id)
  {
    var a := prefix + host;
    var s := a + id + rest;
    assert s == prefix + host + (id + rest);
    PrefixTaken(prefix, host, id + rest);
    HostTaken(prefix, host, id + rest);
    assert s[|a|..|a| + 11] == id;
    MatchOfParts(s, |prefix|, |host|, id);
  }

  /**
   * A watch, shorts or short-link URL, with or without scheme and `www.`, gives its id,
   * whatever follows the id (`?si=…`, `&t=42s`, white space or nothing): the pattern
   * has no end anchor.
   */
  lemma ExtractIdOfYouTubeUrl(prefix: string, host: string, id: string, rest: string)
    requires IsHostForm(host)
    requires IsSchemeForm(prefix)
    requires IsId(id)
    ensures ExtractId(prefix + host + id + rest) == Some(id)
  {
    MatchOfPrefix(prefix, host, id, rest);
  }

  lemma AtPrefix(s: string, p: nat, lit: string, n: nat)
    requires At(s, p, lit) && n <= |lit|
    ensures At(s, p, lit[..n])
  {
    assert s[p..p + n] == s[p..p + |lit|][..n];
  }

  /** Every match sits on the letters `youtu` a few characters on. */
  lemma MatchNeedsHost(s: string, p: nat)
    requires MatchIdAt(s, p).Some?
    ensures exists h :: p <= h && At(s, h, "youtu")
  {
    var q := p + SchemeLen(s, p);
    var h := q + WwwLen(s, q);
    if At(s, h, "youtube.com/watch?v=") {
      AtPrefix(s, h, "youtube.com/watch?v=", 5);
      assert "youtube.com/watch?v="[..5] == "youtu";
    } else if At(s, h, "youtube.com/shorts/") {
      AtPrefix(s, h, "youtube.com/shorts/", 5);
      assert "youtube.com/shorts/"[..5] == "youtu";
    } else {
      AtPrefix(s, h, "youtu.be/", 5);
      assert "youtu.be/"[..5] == "youtu";
    }
  }

  /**
   * Input without a YouTube host name is not rejected: it is handed on
   * trimmed, to be used as an id as it is.
   */
  lemma ExtractIdWithoutHost(url: string)
    requires url != []
    requires forall h :: !At(url, h, "youtu")
    ensures ExtractId(url) == Some(Trim(url))
  {
    if FindId(url, 0).Some? {
      var j :| 0 <= j < |url| && MatchIdAt(url, j) == FindId(url, 0);
      MatchNeedsHost(url, j);
    }
  }
}
