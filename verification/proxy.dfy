/** The read-through proxy used when a feed cannot be fetched directly: the
    URL rewrite and the unwrapping of the proxied response. */
module Proxy {
  import opened Strings

  const ProxyPrefix: string := "https://r.jina.ai/http://"

  /** The preamble the proxy puts before the original content. */
  const Marker: string := "Markdown Content:"

  /** `url.replace(/^https?:\/\//, "")`: drops a leading `http://` or `https://`. */
  function StripScheme(url: string): (rest: string)
    ensures StartsWith(url, "https://") ==> url == "https://" + rest
    ensures !StartsWith(url, "https://") && StartsWith(url, "http://") ==> url == "http://" + rest
    ensures !StartsWith(url, "https://") && !StartsWith(url, "http://") ==> rest == url
  {
    if StartsWith(url, "https://") then url[8..]
    else if StartsWith(url, "http://") then url[7..]
    else url
  }

  /** `toProxyUrl(url)`: the proxy address for `url`, always over `http://`. */
  function ToProxyUrl(url: string): (p: string)
    ensures StartsWith(p, ProxyPrefix)
  {
    ProxyPrefix + StripScheme(url)
  }

  /** The scheme is replaced, not kept: both schemes give the same proxy address. */
  lemma ProxyUrlIgnoresScheme(hostAndPath: string)
    ensures ToProxyUrl("https://" + hostAndPath) == ProxyPrefix + hostAndPath
    ensures ToProxyUrl("http://" + hostAndPath) == ProxyPrefix + hostAndPath
  {
    assert StartsWith("https://" + hostAndPath, "https://");
    assert ("https://" + hostAndPath)[8..] == hostAndPath;
    assert StartsWith("http://" + hostAndPath, "http://");
    assert !StartsWith("http://" + hostAndPath, "https://") by {
      assert ("http://" + hostAndPath)[4] == ':';
    }
    assert ("http://" + hostAndPath)[7..] == hostAndPath;
  }

  /** `extractProxyBody(text)`: the trimmed text after the first marker, or the
      whole text trimmed when there is no marker. */
  function ExtractProxyBody(text: string): (body: string)
    ensures IsTrimmed(body)
    ensures !Contains(text, Marker) ==> body == Trim(text)
    ensures forall i :: OccursAt(text, Marker, i) && (forall k :: k < i ==> !OccursAt(text, Marker, k)) ==>
              body == Trim(text[i + |Marker|..])
  {
    var idx := FindSubstring(text, Marker);
    if idx == -1 then Trim(text)
    else Trim(text[idx + |Marker|..])
  }

  /** Unwrapping a proxied response whose preamble mentions no `M` gives back
      the trimmed original content, whatever that content contains. */
  lemma ExtractEnvelope(preamble: string, content: string)
    requires 'M' !in preamble
    ensures ExtractProxyBody(preamble + Marker + content) == Trim(content)
  {
    var text := preamble + Marker + content;
    var n := |preamble|;
    assert text[n..n + |Marker|] == Marker;
    assert OccursAt(text, Marker, n);
    forall k | k < n ensures !OccursAt(text, Marker, k) {
      if 0 <= k {
        assert text[k] == preamble[k];
        if k + |Marker| <= |text| {
          assert text[k..k + |Marker|][0] == text[k];
        }
      }
    }
    assert text[n + |Marker|..] == content;
  }

  /** An occurrence inside an infix is an occurrence in the whole text. */
  lemma OccursInInfix(text: string, i: nat, t: string, k: int)
    requires i + |t| <= |text| && t == text[i..i + |t|]
    requires OccursAt(t, Marker, k)
    ensures OccursAt(text, Marker, i + k)
  {
    var a, b := text[i + k..i + k + |Marker|], t[k..k + |Marker|];
    forall j | 0 <= j < |Marker| ensures a[j] == b[j] {
      assert t[k + j] == text[i + k + j];
    }
    assert a == b;
  }

  /** Trimming cannot create the marker. */
  lemma MarkerAbsentAfterTrim(text: string)
    requires !Contains(text, Marker)
    ensures !Contains(Trim(text), Marker)
  {
    var t := Trim(text);
    if FindSubstring(t, Marker) != -1 {
      OccursInInfix(text, Lead(text), t, FindSubstring(t, Marker));
      assert false;
    }
  }

  /** Text that never mentions the marker is only trimmed, so extraction is
      idempotent on such text. */
  lemma ExtractWithoutMarkerIdempotent(text: string)
    requires !Contains(text, Marker)
    ensures ExtractProxyBody(ExtractProxyBody(text)) == ExtractProxyBody(text)
  {
    MarkerAbsentAfterTrim(text);
    TrimIdempotent(text);
  }
}
