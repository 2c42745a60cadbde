/**
 * The main action buttons (src/components/ActionButtons.tsx): the icon chosen
 * for an action, and what a click does. A click records the action's title and
 * raw href, then opens either a WhatsApp deep link carrying the page's
 * greeting message or the href itself; both effects are outputs here.
 */
module ActionButtons {
  import opened Wrappers
  import opened JsString
  import opened Uri
  import opened StoreContext

  // ---------------------------------------------------------------- icons

  datatype Icon = Grid3X3 | MapPin | MessageCircle | Package | Truck | Star

  /** The key of `iconMap` under which each icon is registered. */
  function IconName(i: Icon): string {
    match i
    case Grid3X3 => "Grid3X3"
    case MapPin => "MapPin"
    case MessageCircle => "MessageCircle"
    case Package => "Package"
    case Truck => "Truck"
    case Star => "Star"
  }

  /** `iconMap[action.icon] || Grid3X3`: the icon registered under the name, `Grid3X3` for
      any name that is not a key of the map. */
  function IconFor(name: string): (i: Icon)
    ensures (exists j :: IconName(j) == name) ==> IconName(i) == name
    ensures (forall j :: IconName(j) != name) ==> i == Grid3X3
  {
    if name == "MapPin" then MapPin
    else if name == "MessageCircle" then MessageCircle
    else if name == "Package" then Package
    else if name == "Truck" then Truck
    else if name == "Star" then Star
    else Grid3X3
  }

  /** Every icon is found again under its own name. */
  lemma IconForName(i: Icon)
    ensures IconFor(IconName(i)) == i
  {
  }

  // ---------------------------------------------------------------- the click handler

  const WhatsAppPrefix: string := "https://wa.me/"

  const WhatsAppHost: string := "wa.me"

  const WhatsAppIcon: string := "MessageCircle"

  /** The guard of the WhatsApp branch: every chat action whose link starts with
      `https://wa.me/` takes it. */
  predicate IsWhatsApp(a: Action): (b: bool)
    ensures a.icon == WhatsAppIcon && StartsWith(a.href, WhatsAppPrefix) ==> b
  {
    if StartsWith(a.href, WhatsAppPrefix) then
      HostInPrefixedLink(a.href[|WhatsAppPrefix|..]);
      assert a.href == WhatsAppPrefix + a.href[|WhatsAppPrefix|..];
      a.icon == WhatsAppIcon && Includes(a.href, WhatsAppHost)
    else a.icon == WhatsAppIcon && Includes(a.href, WhatsAppHost)
  }

  /** `href.replace('https://wa.me/', '')`: the text after a leading prefix; an href without
      the prefix is kept whole. */
  function PhoneNumber(href: string): (phone: string)
    ensures StartsWith(href, WhatsAppPrefix) ==> phone == href[|WhatsAppPrefix|..]
    ensures !Includes(href, WhatsAppPrefix) ==> phone == href
  {
    if StartsWith(href, WhatsAppPrefix) then
      ReplaceLeadingOccurrence(WhatsAppPrefix, href[|WhatsAppPrefix|..]);
      assert href == WhatsAppPrefix + href[|WhatsAppPrefix|..];
      ReplaceFirst(href, WhatsAppPrefix, "")
    else ReplaceFirst(href, WhatsAppPrefix, "")
  }

  /** `https://wa.me/${phoneNumber}?text=${encodeURIComponent(message)}`: a `wa.me` link whose
      last parameter is the encoded greeting. */
  function WhatsAppUrl(href: string, message: string): (url: string)
    ensures StartsWith(url, WhatsAppPrefix)
    ensures EndsWith(url, "?text=" + EncodeUriComponent(message))
  {
    var head, tail := WhatsAppPrefix + PhoneNumber(href), "?text=" + EncodeUriComponent(message);
    assert (head + tail)[..|WhatsAppPrefix|] == WhatsAppPrefix;
    assert (head + tail)[|head|..] == tail;
    head + tail
  }

  /** The URL the click opens: a `wa.me` chat link on the WhatsApp branch, the href itself
      otherwise. */
  function OpenedUrl(a: Action, message: string): (url: string)
    ensures IsWhatsApp(a) ==> StartsWith(url, WhatsAppPrefix)
    ensures !IsWhatsApp(a) ==> url == a.href
  {
    if IsWhatsApp(a) then WhatsAppUrl(a.href, message) else a.href
  }

  datatype ClickEffect = TrackClick(title: string, href: string) | OpenWindow(url: string)

  /** The effects of a click on action `a`, in order, with `message` the page's WhatsApp
      greeting: the click is recorded once, with the raw href, before the window opens. */
  function OnClick(a: Action, message: string): (effects: seq<ClickEffect>)
    ensures |effects| == 2
    ensures effects[0] == TrackClick(a.title, a.href)
    ensures effects[1].OpenWindow?
    ensures IsWhatsApp(a) ==> effects[1].url == WhatsAppUrl(a.href, message)
    ensures !IsWhatsApp(a) ==> effects[1].url == a.href
  {
    [TrackClick(a.title, a.href), OpenWindow(OpenedUrl(a, message))]
  }

  /** The WhatsApp branch is taken exactly for the chat icon with a `wa.me` link. */
  lemma WhatsAppBranchGuard(a: Action, message: string)
    ensures OnClick(a, message)[1].url == WhatsAppUrl(a.href, message) <==
      (a.icon == "MessageCircle" && Includes(a.href, "wa.me"))
    ensures a.icon != "MessageCircle" ==> OnClick(a, message)[1].url == a.href
    ensures !Includes(a.href, "wa.me") ==> OnClick(a, message)[1].url == a.href
  {
  }

  lemma {:induction false} HostInPrefixedLink(p: string)
    ensures Includes(WhatsAppPrefix + p, WhatsAppHost)
  {
    var s := WhatsAppPrefix + p;
    assert s[8..13] == WhatsAppHost;
    assert OccursAt(s, WhatsAppHost, 8);
  }

  /** A chat action linking to `https://wa.me/` + p opens `https://wa.me/` + p with the
      encoded greeting as its `text` parameter, whatever `p` holds. */
  lemma PrefixedLinkOpensChat(title: string, subtitle: string, p: string, message: string)
    ensures OnClick(Action(title, subtitle, WhatsAppPrefix + p, "MessageCircle"), message)[1].url
         == WhatsAppPrefix + p + "?text=" + EncodeUriComponent(message)
  {
    HostInPrefixedLink(p);
    ReplaceLeadingOccurrence(WhatsAppPrefix, p);
  }

  /** The encoded greeting holds only unreserved characters and `%XX` escapes: no raw `&`,
      `#`, `=`, `?` or space can end or split the `text` parameter. */
  lemma EncodedMessageIsSafe(message: string)
    ensures forall i :: 0 <= i < |EncodeUriComponent(message)| ==>
      EncodeUriComponent(message)[i] !in {'&', '#', '=', '?', ' '}
  {
  }

  /** The `text` parameter of the chat link percent-decodes to the UTF-8 octets of the greeting. */
  lemma ChatTextDecodes(href: string, message: string)
    ensures var url := WhatsAppUrl(href, message);
      var query := WhatsAppPrefix + PhoneNumber(href) + "?text=";
      StartsWith(url, query) && PercentDecode(url[|query|..]) == Some(Utf8Bytes(message))
  {
    var url := WhatsAppUrl(href, message);
    var query := WhatsAppPrefix + PhoneNumber(href) + "?text=";
    assert url == query + EncodeUriComponent(message);
    assert url[..|query|] == query;
    assert url[|query|..] == EncodeUriComponent(message);
    DecodeEncode(message);
  }
}
