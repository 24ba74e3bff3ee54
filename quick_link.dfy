/**
 * The quick-link dialog (src/components/QuickLinkHelper.tsx): the user
 * names a place, optionally gives an own URL, and the dialog emits the
 * link markup for it and resets its form.
 */
module QuickLink {
  import opened Options
  import opened Text
  import opened LinkParser

  /**
   * The URL `handleAddLink` links to: the trimmed custom URL when that
   * option is on and the URL is not blank, otherwise a maps search for the
   * place name and the location.
   */
  function ChosenUrl(placeName: string, useCustomUrl: bool, customUrl: string,
                     locationName: Option<string>, encode: string -> string): (url: string)
    ensures url != []
    ensures useCustomUrl && !IsBlank(customUrl) ==> url == Trim(customUrl)
    ensures !(useCustomUrl && !IsBlank(customUrl)) ==> url == CreateGoogleMapsUrl(placeName, locationName, encode)
  {
    if useCustomUrl && !IsBlank(customUrl) then Trim(customUrl)
    else CreateGoogleMapsUrl(placeName, locationName, encode)
  }

  /**
   * What the dialog emits reads back as one link to the chosen URL, as long
   * as the place name has no `]` and the URL no `)`; a maps search URL is
   * flagged as a maps link.
   */
  lemma EmittedLinkParses(placeName: string, useCustomUrl: bool, customUrl: string,
                          locationName: Option<string>, encode: string -> string)
    requires !IsBlank(placeName) && ']' !in placeName
    requires ')' !in ChosenUrl(placeName, useCustomUrl, customUrl, locationName, encode)
    ensures var url := ChosenUrl(placeName, useCustomUrl, customUrl, locationName, encode);
      Segments(CreateLinkString(placeName, url)) == [LinkSegment(placeName, url, IsGoogleMaps(url))]
    ensures !(useCustomUrl && !IsBlank(customUrl)) ==>
      IsGoogleMaps(ChosenUrl(placeName, useCustomUrl, customUrl, locationName, encode))
  {
    var url := ChosenUrl(placeName, useCustomUrl, customUrl, locationName, encode);
    assert placeName != [];
    RoundTrip(placeName, url);
    MapsUrlIsGoogleMaps(placeName, locationName, encode);
  }

  /**
   * The case `EmittedLinkParses` leaves out, as the dialog behaves: a chosen
   * URL holding `)` (a custom URL, or a place name with parentheses, which
   * URI encoding keeps) reads back as a link cut at its first `)`, followed
   * by stray text.
   */
  lemma EmittedLinkTruncated(placeName: string, useCustomUrl: bool, customUrl: string,
                             locationName: Option<string>, encode: string -> string, k: nat)
    requires !IsBlank(placeName) && ']' !in placeName
    requires var url := ChosenUrl(placeName, useCustomUrl, customUrl, locationName, encode);
      0 < k < |url| && url[k] == ')' && ')' !in url[..k]
    ensures var url := ChosenUrl(placeName, useCustomUrl, customUrl, locationName, encode);
      var segs := Segments(CreateLinkString(placeName, url));
      |segs| >= 2 && segs[0] == LinkSegment(placeName, url[..k], IsGoogleMaps(url[..k]))
  {
    assert placeName != [];
    CloseInUrlTruncates(placeName, ChosenUrl(placeName, useCustomUrl, customUrl, locationName, encode), k);
  }

  class QuickLinkHelper {
    var isOpen: bool
    var placeName: string
    var customUrl: string
    var useCustomUrl: bool

    constructor ()
      ensures !isOpen && placeName == [] && customUrl == [] && !useCustomUrl
    {
      isOpen := false;
      placeName := [];
      customUrl := [];
      useCustomUrl := false;
    }

    /**
     * `handleAddLink`; the markup passed to `onAddLink` is returned. A blank
     * place name does nothing; otherwise the markup for the untrimmed place
     * name and the chosen URL is emitted and the form is reset and closed.
     */
    method HandleAddLink(locationName: Option<string>, encode: string -> string) returns (emitted: Option<string>)
      modifies this
      ensures IsBlank(old(placeName)) ==> emitted == None && unchanged(this)
      ensures !IsBlank(old(placeName)) ==>
        && emitted == Some(CreateLinkString(old(placeName),
                             ChosenUrl(old(placeName), old(useCustomUrl), old(customUrl), locationName, encode)))
        && placeName == [] && customUrl == [] && !useCustomUrl && !isOpen
    {
      if IsBlank(placeName) {
        return None;
      }
      var url: string;
      if useCustomUrl && !IsBlank(customUrl) {
        url := Trim(customUrl);
      } else {
        url := CreateGoogleMapsUrl(placeName, locationName, encode);
      }
      assert url == ChosenUrl(placeName, useCustomUrl, customUrl, locationName, encode);
      var linkString := CreateLinkString(placeName, url);
      emitted := Some(linkString);
      placeName := [];
      customUrl := [];
      useCustomUrl := false;
      isOpen := false;
    }
  }
}
