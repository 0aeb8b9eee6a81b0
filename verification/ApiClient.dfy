/**
 * The voice app's resolution of the audio URL a speech reply carries: an
 * absolute URL is kept, a server-relative one is prefixed with the base URL
 * the client was configured with.
 */
module ApiClient {
  import opened Js
  import TtsService

  /** `getFullAudioUrl`: keeps a URL that starts with "http", else prefixes the base URL. */
  function FullAudioUrl(baseUrl: string, audioUrl: string): (r: string)
    ensures StartsWith(audioUrl, "http") ==> r == audioUrl
    ensures !StartsWith(audioUrl, "http") ==> StartsWith(r, baseUrl) && |r| == |baseUrl| + |audioUrl|
    ensures EndsWith(r, audioUrl)
  {
    if StartsWith(audioUrl, "http") then audioUrl else baseUrl + audioUrl
  }

  /** With an absolute base URL, resolving a resolved URL changes nothing. */
  lemma FullAudioUrlIdempotent(baseUrl: string, audioUrl: string)
    requires StartsWith(baseUrl, "http")
    ensures FullAudioUrl(baseUrl, FullAudioUrl(baseUrl, audioUrl)) == FullAudioUrl(baseUrl, audioUrl)
  {
    var r := FullAudioUrl(baseUrl, audioUrl);
    if !StartsWith(audioUrl, "http") {
      assert r[..|"http"|] == baseUrl[..|"http"|];
    }
  }

  /** The URL of generated speech resolves against the server's base URL to `<base>/api/audio/<file>`. */
  lemma SpeechUrlResolves(baseUrl: string, fileName: string)
    ensures FullAudioUrl(baseUrl, TtsService.AudioUrl(fileName)) == baseUrl + "/api/audio/" + fileName
  {
    var url := TtsService.AudioUrl(fileName);
    assert url[0] == '/';
  }
}
