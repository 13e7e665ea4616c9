/**
 * The welcome message: one HTML mention per new member, the mentions joined
 * into a fixed template, and the fixed inline keyboard. A parser for the
 * joined mentions is the partner that shows each member gets exactly one
 * anchor, in order, with a link target that depends on the id alone.
 */
module Welcome {
  import opened Wrappers
  import opened PyStr
  import opened Html

  /** A new chat member: the numeric user id and the optional first name. */
  datatype Member = Member(id: int, firstName: Option<string>)

  /** The label used when a member has no first name. */
  const Fallback: string := "ospite"

  /** `first_name or "ospite"`: `None` and `""` are falsy, anything else is kept. */
  function GivenOrFallback(m: Member): string {
    if m.firstName.None? || m.firstName.value == "" then Fallback else m.firstName.value
  }

  /** `(first_name or "ospite").strip()`. */
  function DisplayName(m: Member): (r: string)
    ensures r == [] || (!IsSpace(r[0]) && !IsSpace(r[|r| - 1]))
  {
    Strip(GivenOrFallback(m))
  }

  /** A missing or empty first name shows as `ospite`, which has nothing to strip. */
  lemma DisplayNameFallback(m: Member)
    requires m.firstName == None || m.firstName == Some("")
    ensures DisplayName(m) == Fallback
  {
    StripTrimmed(Fallback);
  }

  /**
   * A non-empty first name is shown as itself with only its leading and
   * trailing whitespace removed.
   */
  lemma DisplayNameOfGivenName(m: Member)
    requires m.firstName.Some? && m.firstName.value != ""
    ensures OuterSpaceRemoved(m.firstName.value, DisplayName(m),
                              |m.firstName.value| - |LStrip(m.firstName.value)|)
  {
    assert GivenOrFallback(m) == m.firstName.value;
    StripRemovesOnlyOuterSpace(m.firstName.value);
  }

  /** `" Bob "` is shown as `Bob`. */
  lemma DisplayNameExample()
    ensures DisplayName(Member(1, Some(" Bob "))) == "Bob"
  {
    var m := Member(1, Some(" Bob "));
    assert GivenOrFallback(m) == " Bob ";
    StripBob();
  }

  /** The two halves of `" Bob ".strip()`, one end at a time. */
  lemma StripBob()
    ensures Strip(" Bob ") == "Bob"
  {
    var s := " Bob ";
    assert !IsSpace('B') && IsSpace(' ');
    assert s[1..] == "Bob ";
    assert LStrip("Bob ") == "Bob ";
    assert LStrip(s) == "Bob ";
    assert "Bob "[..3] == "Bob";
    assert !IsSpace('b');
    assert RStrip("Bob") == "Bob";
    assert RStrip("Bob ") == "Bob";
  }

  /** The anchor text of a mention: the display name, HTML-escaped. */
  function Label(m: Member): string {
    Escape(DisplayName(m))
  }

  /**
   * The label cannot break out of its anchor, it reads back as the display
   * name, and it is `ospite` for a missing or empty first name.
   */
  lemma LabelProperties(m: Member)
    ensures forall i :: 0 <= i < |Label(m)| ==>
              Label(m)[i] != '<' && Label(m)[i] != '>' && Label(m)[i] != '"' && Label(m)[i] != '\''
    ensures Unescape(Label(m)) == DisplayName(m)
    ensures m.firstName == None || m.firstName == Some("") ==> Label(m) == Fallback
  {
    EscapeHasNoMarkup(DisplayName(m));
    UnescapeEscape(DisplayName(m));
    if m.firstName == None || m.firstName == Some("") {
      DisplayNameFallback(m);
      FallbackIsPlain();
    }
  }

  /** `ospite` holds no character that escaping would touch. */
  lemma FallbackIsPlain()
    ensures Escape(Fallback) == Fallback
  {
    EscapePlain(Fallback);
  }

  /**
   * A first name made only of whitespace is truthy, so it escapes the
   * fallback and strips to nothing: the mention's label is empty.
   */
  lemma BlankNameGivesEmptyLabel(m: Member)
    requires m.firstName.Some? && m.firstName.value != ""
    requires forall i :: 0 <= i < |m.firstName.value| ==> IsSpace(m.firstName.value[i])
    ensures Label(m) == ""
  {
    StripEmptyIffBlank(m.firstName.value);
  }

  /** What a reader sees in one mention: the user it links to, and its text. */
  datatype Anchor = Anchor(userId: int, caption: string)

  /** The anchor a member should get: the member's own id and label. */
  function AnchorOf(m: Member): Anchor {
    Anchor(m.id, Label(m))
  }

  const AnchorOpen: string := "<a href=\"tg://user?id="
  const AnchorMid: string := "\">"
  const AnchorClose: string := "</a>"

  /** `<a href="tg://user?id=<id>"><caption></a>` */
  function Render(a: Anchor): string {
    AnchorOpen + IntToString(a.userId) + AnchorMid + a.caption + AnchorClose
  }

  /** The mention of one new member. */
  function Mention(m: Member): string {
    Render(AnchorOf(m))
  }

  /** The mentions of `members`, one each, in order. */
  function Mentions(members: seq<Member>): (r: seq<string>)
    ensures |r| == |members|
  {
    if members == [] then [] else [Mention(members[0])] + Mentions(members[1..])
  }

  /** The k-th mention is the k-th member's. */
  lemma {:induction false} MentionsAt(members: seq<Member>, k: nat)
    requires k < |members|
    ensures Mentions(members)[k] == Mention(members[k])
  {
    assert Mentions(members) == [Mention(members[0])] + Mentions(members[1..]);
    if k > 0 {
      assert members[1..][k - 1] == members[k];
      MentionsAt(members[1..], k - 1);
    }
  }

  /** Mentions of a list with one more member at the end: one more mention at the end. */
  lemma {:induction false} MentionsSnoc(members: seq<Member>, m: Member)
    ensures Mentions(members + [m]) == Mentions(members) + [Mention(m)]
  {
    if members != [] {
      assert (members + [m])[1..] == members[1..] + [m];
      MentionsSnoc(members[1..], m);
    } else {
      assert [m][1..] == [];
    }
  }

  /** One more member of the prefix adds its own mention at the end. */
  lemma MentionsPrefixStep(members: seq<Member>, i: nat)
    requires i < |members|
    ensures Mentions(members[..i + 1]) == Mentions(members[..i]) + [Mention(members[i])]
  {
    assert members[..i + 1] == members[..i] + [members[i]];
    MentionsSnoc(members[..i], members[i]);
  }

  /** The loop that collects one mention per new member into `new_names`. */
  method BuildMentions(members: seq<Member>) returns (newNames: seq<string>)
    ensures newNames == Mentions(members)
  {
    newNames := [];
    var i := 0;
    while i < |members|
      invariant 0 <= i <= |members|
      invariant newNames == Mentions(members[..i])
    {
      MentionsPrefixStep(members, i);
      newNames := newNames + [Mention(members[i])];
      i := i + 1;
    }
    assert members[..i] == members;
  }

  const Separator: string := ", "

  /** The mentions joined with `", "`. */
  function JoinedMentions(members: seq<Member>): string {
    Join(Separator, Mentions(members))
  }

  const WelcomeOpening: string := "\U{2728} Benvenuti in Golden Fork, "
  const WelcomeClosing: string :=
    "! \U{2728}\nIl posto dove ogni prenotazione significa 50\U{20AC} di risparmio.\n\n"
    + "\U{1F449} Per iniziare, scegli un\U{2019}opzione qui sotto:"

  /** The full message body. */
  function WelcomeText(members: seq<Member>): string {
    WelcomeOpening + JoinedMentions(members) + WelcomeClosing
  }

  // Reading a message back

  datatype ParsedAnchor = ParsedAnchor(anchor: Anchor, rest: string)

  /** Reads one mention off the front of `s`. */
  function ParseAnchor(s: string): (r: Option<ParsedAnchor>)
    ensures r.Some? ==> |r.value.rest| < |s| && r.value.rest == s[|s| - |r.value.rest|..]
  {
    if !StartsWith(s, AnchorOpen) then None else ParseHref(s[|AnchorOpen|..])
  }

  /** The user id up to the closing quote, then `">`, then the caption. */
  function ParseHref(t: string): (r: Option<ParsedAnchor>)
    ensures r.Some? ==> |r.value.rest| < |t| && r.value.rest == t[|t| - |r.value.rest|..]
  {
    var idEnd := IndexOf(t, '"');
    if !StartsWith(t[idEnd..], AnchorMid) then None
    else
      match ParseInt(t[..idEnd])
      case None => None
      case Some(id) => ParseCaption(id, t[idEnd + |AnchorMid|..])
  }

  /** The caption up to the next `<`, then `</a>`. */
  function ParseCaption(id: int, u: string): (r: Option<ParsedAnchor>)
    ensures r.Some? ==> |r.value.rest| < |u| && r.value.rest == u[|u| - |r.value.rest|..]
  {
    var captionEnd := IndexOf(u, '<');
    if !StartsWith(u[captionEnd..], AnchorClose) then None
    else Some(ParsedAnchor(Anchor(id, u[..captionEnd]), u[captionEnd + |AnchorClose|..]))
  }

  /** Reads one or more mentions separated by `", "`, and nothing else. */
  function ParseMentionList(s: string): Option<seq<Anchor>>
    decreases |s|
  {
    match ParseAnchor(s)
    case None => None
    case Some(p) =>
      if p.rest == [] then Some([p.anchor])
      else if StartsWith(p.rest, Separator) then
        match ParseMentionList(p.rest[|Separator|..])
        case None => None
        case Some(more) => Some([p.anchor] + more)
      else None
  }

  function ParseMentions(s: string): Option<seq<Anchor>> {
    if s == [] then Some([]) else ParseMentionList(s)
  }

  /** Reads the mentions out of a whole welcome message. */
  function ParseWelcomeText(s: string): Option<seq<Anchor>> {
    if |s| >= |WelcomeOpening| + |WelcomeClosing|
       && StartsWith(s, WelcomeOpening)
       && s[|s| - |WelcomeClosing|..] == WelcomeClosing
    then ParseMentions(s[|WelcomeOpening|..|s| - |WelcomeClosing|])
    else None
  }

  // The round trip, first for any anchors whose caption cannot end early

  predicate CaptionIsSafe(a: Anchor) {
    forall i :: 0 <= i < |a.caption| ==> a.caption[i] != '<'
  }

  function RenderAll(anchors: seq<Anchor>): seq<string> {
    if anchors == [] then [] else [Render(anchors[0])] + RenderAll(anchors[1..])
  }

  lemma IdTextHasNoQuote(n: int)
    ensures forall i :: 0 <= i < |IntToString(n)| ==> IntToString(n)[i] != '"'
  {
    var s := IntToString(n);
    forall i | 0 <= i < |s| ensures s[i] != '"' {
      if n < 0 && i > 0 {
        assert s[i] == s[1..][i - 1];
      }
    }
  }

  lemma {:induction false} ParseCaptionOfParts(id: int, caption: string, rest: string)
    requires forall i :: 0 <= i < |caption| ==> caption[i] != '<'
    ensures ParseCaption(id, caption + (AnchorClose + rest)) == Some(ParsedAnchor(Anchor(id, caption), rest))
  {
    var u := caption + (AnchorClose + rest);
    IndexOfAfterPrefix(caption, AnchorClose + rest, '<');
    CutConcat(caption, AnchorClose + rest);
    CutConcat(AnchorClose, rest);
    DropDrop(u, |caption|, |AnchorClose|);
  }

  lemma {:induction false} ParseHrefOfParts(idText: string, caption: string, rest: string)
    requires forall i :: 0 <= i < |idText| ==> idText[i] != '"'
    requires forall i :: 0 <= i < |caption| ==> caption[i] != '<'
    requires ParseInt(idText).Some?
    ensures ParseHref(idText + (AnchorMid + (caption + (AnchorClose + rest))))
         == Some(ParsedAnchor(Anchor(ParseInt(idText).value, caption), rest))
  {
    var after := caption + (AnchorClose + rest);
    var t := idText + (AnchorMid + after);
    IndexOfAfterPrefix(idText, AnchorMid + after, '"');
    CutConcat(idText, AnchorMid + after);
    CutConcat(AnchorMid, after);
    DropDrop(t, |idText|, |AnchorMid|);
    ParseCaptionOfParts(ParseInt(idText).value, caption, rest);
  }

  /** A rendered anchor reads back as itself and leaves what follows untouched. */
  lemma {:induction false} ParseRendered(a: Anchor, rest: string)
    requires CaptionIsSafe(a)
    ensures ParseAnchor(Render(a) + rest) == Some(ParsedAnchor(a, rest))
  {
    var idText := IntToString(a.userId);
    var t := idText + (AnchorMid + (a.caption + (AnchorClose + rest)));
    assert Render(a) + rest == AnchorOpen + t;
    CutConcat(AnchorOpen, t);
    IdTextHasNoQuote(a.userId);
    ParseIntOfIntToString(a.userId);
    ParseHrefOfParts(idText, a.caption, rest);
  }

  /** A text whose one mention leaves nothing behind reads as that single anchor. */
  lemma ParseLast(s: string, a: Anchor)
    requires ParseAnchor(s) == Some(ParsedAnchor(a, []))
    ensures ParseMentions(s) == Some([a])
  {
  }

  /** A mention followed by `", "` and a readable list reads as that anchor in front of the list. */
  lemma ParseCons(s: string, a: Anchor, joinedTail: string)
    requires ParseAnchor(s) == Some(ParsedAnchor(a, Separator + joinedTail))
    requires joinedTail != [] && ParseMentions(joinedTail).Some?
    ensures ParseMentions(s) == Some([a] + ParseMentions(joinedTail).value)
  {
    var rest := Separator + joinedTail;
    assert StartsWith(rest, Separator);
    assert rest[|Separator|..] == joinedTail;
  }

  /** `part` is one whole mention of `a`: read from the front of any text, it gives `a` and stops at its own end. */
  ghost predicate ReadsAs(part: string, a: Anchor) {
    forall rest :: ReadFrom(part, rest) == Some(ParsedAnchor(a, rest))
  }

  /** One anchor read from the front of `part + rest`. */
  function ReadFrom(part: string, rest: string): Option<ParsedAnchor> {
    ParseAnchor(part + rest)
  }

  lemma RenderReadsAs(a: Anchor)
    requires CaptionIsSafe(a)
    ensures ReadsAs(Render(a), a)
  {
    forall rest: string ensures ReadFrom(Render(a), rest) == Some(ParsedAnchor(a, rest)) {
      ParseRendered(a, rest);
    }
  }

  lemma ReadsAsNonEmpty(part: string, a: Anchor)
    requires ReadsAs(part, a)
    ensures part != []
  {
    assert ReadFrom(part, []) == Some(ParsedAnchor(a, []));
  }

  lemma JoinedSingle(parts: seq<string>, anchors: seq<Anchor>)
    requires |parts| == |anchors| == 1 && ReadsAs(parts[0], anchors[0])
    ensures ParseMentions(Join(Separator, parts)) == Some(anchors)
  {
    assert ReadFrom(parts[0], []) == Some(ParsedAnchor(anchors[0], []));
    assert parts[0] + [] == parts[0];
    ParseLast(parts[0], anchors[0]);
    assert [anchors[0]] == anchors;
  }

  lemma ReadsAsAt(part: string, a: Anchor, rest: string)
    requires ReadsAs(part, a)
    ensures ParseAnchor(part + rest) == Some(ParsedAnchor(a, rest))
  {
    assert ReadFrom(part, rest) == Some(ParsedAnchor(a, rest));
  }

  lemma JoinedCons(parts: seq<string>, anchors: seq<Anchor>)
    requires |parts| == |anchors| >= 2
    requires ReadsAs(parts[0], anchors[0]) && ReadsAs(parts[1], anchors[1])
    requires ParseMentions(Join(Separator, parts[1..])) == Some(anchors[1..])
    ensures ParseMentions(Join(Separator, parts)) == Some(anchors)
  {
    var joinedTail := Join(Separator, parts[1..]);
    JoinCons(Separator, parts);
    HeadTail(anchors);
    ReadsAsNonEmpty(parts[1], anchors[1]);
    ReadsAsAt(parts[0], anchors[0], Separator + joinedTail);
    ParseCons(parts[0] + (Separator + joinedTail), anchors[0], joinedTail);
  }

  /** Parts that each read as one anchor, joined with `", "`, read back as those anchors in order. */
  lemma {:induction false} JoinedRoundTrip(parts: seq<string>, anchors: seq<Anchor>)
    requires |parts| == |anchors|
    requires forall k :: 0 <= k < |parts| ==> ReadsAs(parts[k], anchors[k])
    ensures ParseMentions(Join(Separator, parts)) == Some(anchors)
    decreases |parts|
  {
    if |parts| == 1 {
      JoinedSingle(parts, anchors);
    } else if |parts| >= 2 {
      var tail := parts[1..];
      forall k | 0 <= k < |tail| ensures ReadsAs(tail[k], anchors[1..][k]) {
        assert tail[k] == parts[k + 1] && anchors[1..][k] == anchors[k + 1];
      }
      JoinedRoundTrip(tail, anchors[1..]);
      JoinedCons(parts, anchors);
    }
  }

  lemma {:induction false} RenderAllAt(anchors: seq<Anchor>, k: nat)
    requires k < |anchors|
    ensures |RenderAll(anchors)| == |anchors| && RenderAll(anchors)[k] == Render(anchors[k])
  {
    if k > 0 {
      RenderAllAt(anchors[1..], k - 1);
    } else {
      RenderAllLength(anchors);
    }
  }

  lemma {:induction false} RenderAllLength(anchors: seq<Anchor>)
    ensures |RenderAll(anchors)| == |anchors|
  {
    if anchors != [] {
      RenderAllLength(anchors[1..]);
    }
  }

  /** Joined rendered anchors read back as exactly those anchors, in order. */
  lemma RenderedRoundTrip(anchors: seq<Anchor>)
    requires forall k :: 0 <= k < |anchors| ==> CaptionIsSafe(anchors[k])
    ensures ParseMentions(Join(Separator, RenderAll(anchors))) == Some(anchors)
  {
    var parts := RenderAll(anchors);
    RenderAllLength(anchors);
    forall k | 0 <= k < |parts| ensures ReadsAs(parts[k], anchors[k]) {
      RenderAllAt(anchors, k);
      RenderReadsAs(anchors[k]);
    }
    JoinedRoundTrip(parts, anchors);
  }

  // The round trip for the members of a welcome

  /** What the message should show for `members`: their ids and labels, in order. */
  function AnchorsOf(members: seq<Member>): (r: seq<Anchor>)
    ensures |r| == |members|
  {
    if members == [] then [] else [AnchorOf(members[0])] + AnchorsOf(members[1..])
  }

  lemma {:induction false} AnchorsOfAt(members: seq<Member>, k: nat)
    requires k < |members|
    ensures AnchorsOf(members)[k] == AnchorOf(members[k])
  {
    assert AnchorsOf(members) == [AnchorOf(members[0])] + AnchorsOf(members[1..]);
    if k > 0 {
      assert members[1..][k - 1] == members[k];
      AnchorsOfAt(members[1..], k - 1);
    }
  }

  lemma {:induction false} MentionsAreRendered(members: seq<Member>)
    ensures Mentions(members) == RenderAll(AnchorsOf(members))
  {
    if members != [] {
      MentionsAreRendered(members[1..]);
      assert Mentions(members) == [Mention(members[0])] + Mentions(members[1..]);
    }
  }

  /** The joined mentions read back as one anchor per member, in input order. */
  lemma MentionsRoundTrip(members: seq<Member>)
    ensures ParseMentions(JoinedMentions(members)) == Some(AnchorsOf(members))
  {
    var anchors := AnchorsOf(members);
    forall k | 0 <= k < |anchors| ensures CaptionIsSafe(anchors[k]) {
      AnchorsOfAt(members, k);
      LabelProperties(members[k]);
    }
    MentionsAreRendered(members);
    RenderedRoundTrip(anchors);
  }

  /** Every anchor's text, unescaped, is its member's display name. */
  lemma LabelsReadBackAsNames(members: seq<Member>, k: nat)
    requires k < |members|
    ensures k < |AnchorsOf(members)|
    ensures Unescape(AnchorsOf(members)[k].caption) == DisplayName(members[k])
  {
    AnchorsOfAt(members, k);
    LabelProperties(members[k]);
  }

  /** The whole message shows one mention per new member, in order, between its fixed parts. */
  lemma {:induction false} WelcomeTextRoundTrip(members: seq<Member>)
    ensures ParseWelcomeText(WelcomeText(members)) == Some(AnchorsOf(members))
  {
    var s := WelcomeText(members);
    var j := JoinedMentions(members);
    assert s[..|WelcomeOpening|] == WelcomeOpening;
    assert s[|s| - |WelcomeClosing|..] == WelcomeClosing;
    assert s[|WelcomeOpening|..|s| - |WelcomeClosing|] == j;
    MentionsRoundTrip(members);
  }

  // The inline keyboard

  datatype Button = Button(text: string, url: string)
  type Keyboard = seq<seq<Button>>

  const SectionLinks: map<string, string> := map[
    "info" := "https://t.me/c/3239080709/2/1",
    "discounts" := "https://t.me/c/3239080709/11/1",
    "reviews" := "https://t.me/c/3239080709/3/1",
    "giveaways" := "https://t.me/c/3239080709/13/1",
    "announce" := "https://t.me/c/3239080709/7/1"
  ]

  const BookingLink: string := "https://t.me/GoldenForkBookingsBot?start=reserve"

  /** The URLs of a keyboard, row by row, left to right. */
  function Urls(k: Keyboard): seq<string> {
    if k == [] then [] else seq(|k[0]|, i requires 0 <= i < |k[0]| => k[0][i].url) + Urls(k[1..])
  }

  /** `InlineKeyboardMarkup`, which the handler fills one `add` call at a time. */
  class Markup {
    var rows: Keyboard

    constructor ()
      ensures rows == []
    {
      rows := [];
    }

    /** One `add(...)` call: the buttons given become one new row. */
    method Add(buttons: seq<Button>)
      modifies this
      ensures rows == old(rows) + [buttons]
    {
      rows := rows + [buttons];
    }
  }

  /** The keyboard every welcome carries. */
  function WelcomeKeyboard(): Keyboard {
    [ [Button("\U{2139}\U{FE0F} Info Servizio", SectionLinks["info"]),
       Button("\U{2757} Sconti Multipli", SectionLinks["discounts"])],
      [Button("\U{2B50} Recensioni", SectionLinks["reviews"]),
       Button("\U{1F381} Giveaway", SectionLinks["giveaways"])],
      [Button("\U{1F4E2} Annunci", SectionLinks["announce"])],
      [Button("\U{1F374} Prenota con 50\U{20AC} di sconto", BookingLink)] ]
  }

  /**
   * Rows of two, two, one and one buttons: the five sections of the group,
   * then the booking bot, in that order.
   */
  lemma WelcomeKeyboardLayout()
    ensures var k := WelcomeKeyboard();
            |k| == 4 && |k[0]| == 2 && |k[1]| == 2 && |k[2]| == 1 && |k[3]| == 1
    ensures Urls(WelcomeKeyboard())
         == [SectionLinks["info"], SectionLinks["discounts"], SectionLinks["reviews"],
             SectionLinks["giveaways"], SectionLinks["announce"], BookingLink]
  {
    var k := WelcomeKeyboard();
    assert Urls(k[3..]) == [BookingLink];
    assert Urls(k[2..]) == [SectionLinks["announce"], BookingLink];
    assert Urls(k[1..]) == [SectionLinks["reviews"], SectionLinks["giveaways"]] + Urls(k[2..]);
  }

  /** The four `markup.add` calls. */
  method BuildMarkup() returns (markup: Markup)
    ensures fresh(markup)
    ensures markup.rows == WelcomeKeyboard()
  {
    var k := WelcomeKeyboard();
    markup := new Markup();
    markup.Add(k[0]);
    markup.Add(k[1]);
    markup.Add(k[2]);
    markup.Add(k[3]);
  }
}
