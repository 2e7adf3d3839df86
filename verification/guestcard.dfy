/**
 * The public guest card page: which view it shows for a token lookup, the short access code
 * printed on the card, the file name of the saved PNG, and how the card's QR code and access
 * code read back at the door scanner.
 */
module GuestCard {
  import opened Wrappers
  import opened Text
  import opened Store
  import opened Scanner
  import opened Seqs

  /** `access_token?.slice(0, 8) || ""`: the short code for manual entry. */
  function AccessCode(token: Option<string>): (code: string)
    ensures token.None? ==> code == ""
    ensures token.Some? ==> code <= token.value
    ensures token.Some? ==> |code| == if |token.value| < ShortCodeLength then |token.value| else ShortCodeLength
  {
    if token.Some? then Take(token.value, ShortCodeLength) else ""
  }

  /** What the page renders. */
  datatype CardView =
    | Loading
    | NotFound
    | Card(guestName: string, guestCategory: string, qrValue: string, accessCode: string)

  /** The page's branch on the lookup: a spinner while loading, the not-found view on an error
      or when no guest holds the token, else the card, whose QR code holds the page's own URL. */
  function View(isLoading: bool, reply: Result<Option<Guest>, string>, pageUrl: string): (v: CardView)
    ensures isLoading <==> v == Loading
    ensures !isLoading && (reply.Err? || reply.value.None?) <==> v == NotFound
    ensures v.Card? ==> reply == Ok(Some(Guest(reply.value.value.id, reply.value.value.eventId, v.guestName,
                          v.guestCategory, reply.value.value.phone, reply.value.value.email,
                          reply.value.value.accessToken)))
    ensures v.Card? ==> v.qrValue == pageUrl && v.accessCode == AccessCode(reply.value.value.accessToken)
  {
    if isLoading then Loading
    else if reply.Err? || reply.value.None? then NotFound
    else
      var g := reply.value.value;
      Card(g.name, g.category, pageUrl, AccessCode(g.accessToken))
  }

  /** `replace(/\s+/g, "-")`: every run of white space becomes one "-". */
  function DashSpaces(s: string): string
    decreases |s|
  {
    if s == [] then []
    else if IsSpace(s[0]) then TrimStartShape(s[1..]); "-" + DashSpaces(TrimStart(s))
    else [s[0]] + DashSpaces(s[1..])
  }

  /** The dashed name has no white space, is no longer than the name, and is empty only for
      an empty name. */
  lemma {:induction false} DashSpacesShape(s: string)
    ensures var r := DashSpaces(s);
            (forall i :: 0 <= i < |r| ==> !IsSpace(r[i])) && (r == [] <==> s == []) && |r| <= |s|
    decreases |s|
  {
    if s != [] {
      if IsSpace(s[0]) {
        TrimStartShape(s[1..]);
        DashSpacesShape(TrimStart(s));
      } else {
        DashSpacesShape(s[1..]);
      }
    }
  }

  /** A name without white space is left as it is. */
  lemma {:induction false} DashSpacesNoop(s: string)
    requires forall i :: 0 <= i < |s| ==> !IsSpace(s[i])
    ensures DashSpaces(s) == s
    decreases |s|
  {
    if s != [] {
      DashSpacesNoop(s[1..]);
      assert [s[0]] + s[1..] == s;
    }
  }

  /** Dashing two words separated by a white-space run joins them with one "-". */
  lemma {:induction false} DashSpacesJoin(a: string, gap: string, b: string)
    requires forall i :: 0 <= i < |a| ==> !IsSpace(a[i])
    requires gap != [] && IsBlank(gap)
    requires b != [] ==> !IsSpace(b[0])
    ensures DashSpaces(a + gap + b) == DashSpaces(a) + "-" + DashSpaces(b)
    decreases |a|
  {
    var s := a + gap + b;
    if a == [] {
      assert s == gap + b;
      DashSpacesGap(gap, b);
    } else {
      assert s[0] == a[0] && s[1..] == a[1..] + gap + b;
      DashSpacesJoin(a[1..], gap, b);
      assert DashSpaces(s) == [a[0]] + DashSpaces(a[1..] + gap + b);
      ConcatAssoc([a[0]], DashSpaces(a[1..]) + "-", DashSpaces(b));
      ConcatAssoc([a[0]], DashSpaces(a[1..]), "-");
    }
  }

  /** A leading white-space run becomes one "-". */
  lemma DashSpacesGap(gap: string, b: string)
    requires gap != [] && IsBlank(gap)
    requires b != [] ==> !IsSpace(b[0])
    ensures DashSpaces(gap + b) == "-" + DashSpaces(b)
  {
    assert (gap + b)[0] == gap[0];
    TrimStartOfGap(gap, b);
  }

  lemma {:induction false} TrimStartOfGap(gap: string, b: string)
    requires IsBlank(gap)
    requires b != [] ==> !IsSpace(b[0])
    ensures TrimStart(gap + b) == b
    decreases |gap|
  {
    if gap != [] {
      assert (gap + b)[1..] == gap[1..] + b;
      TrimStartOfGap(gap[1..], b);
    } else {
      assert gap + b == b;
    }
  }

  const CardFilePrefix := "access-card-"
  const CardFileSuffix := ".png"
  const FallbackSlug := "guest"

  /** `name?.replace(/\s+/g, "-").toLowerCase() || "guest"`. */
  function Slug(name: Option<string>): (slug: string)
    ensures slug != []
    ensures forall i :: 0 <= i < |slug| ==> !IsSpace(slug[i])
    ensures name.None? || name.value == [] ==> slug == FallbackSlug
    ensures name.Some? && name.value != [] ==> slug == ToLower(DashSpaces(name.value))
  {
    var dashed := if name.Some? then DashSpacesShape(name.value); ToLower(DashSpaces(name.value)) else "";
    if dashed == [] then FallbackSlug else dashed
  }

  /** The saved PNG's file name. */
  function DownloadName(name: Option<string>): (file: string)
    ensures StartsWith(file, CardFilePrefix)
    ensures |file| > |CardFilePrefix| + |CardFileSuffix|
    ensures file[|file| - |CardFileSuffix|..] == CardFileSuffix
    ensures file[|CardFilePrefix|..|file| - |CardFileSuffix|] == Slug(name)
  {
    CardFilePrefix + Slug(name) + CardFileSuffix
  }

  /** A guest without a name, or with an empty one, gets "access-card-guest.png". */
  lemma NamelessDownload()
    ensures DownloadName(None) == "access-card-guest.png"
    ensures DownloadName(Some("")) == "access-card-guest.png"
  {
  }

  /** A name without white space is only lower-cased; one with a gap between two words gets
      a single "-" there. */
  lemma SlugOfWords(a: string, gap: string, b: string)
    requires forall i :: 0 <= i < |a| ==> !IsSpace(a[i])
    requires forall i :: 0 <= i < |b| ==> !IsSpace(b[i])
    requires a != [] && gap != [] && IsBlank(gap)
    ensures Slug(Some(a)) == ToLower(a)
    ensures Slug(Some(a + gap + b)) == ToLower(a) + "-" + ToLower(b)
  {
    DashSpacesNoop(a);
    DashSpacesNoop(b);
    DashSpacesJoin(a, gap, b);
    ToLowerAppend(a + "-", b);
    ToLowerAppend(a, "-");
  }

  /** Upper-casing keeps white space and "/" where they are and adds none. */
  lemma UpperKeepsClasses(s: string)
    ensures forall i :: 0 <= i < |s| ==> (IsSpace(ToUpper(s)[i]) <==> IsSpace(s[i]))
    ensures '/' in ToUpper(s) <==> '/' in s
  {
    if '/' in ToUpper(s) {
      var i :| 0 <= i < |s| && ToUpper(s)[i] == '/';
      assert s[i] == '/';
    }
    if '/' in s {
      var i :| 0 <= i < |s| && s[i] == '/';
      assert ToUpper(s)[i] == '/';
    }
  }

  /** Scanning the card's QR code: when the page's URL ends in "/" followed by the token, the
      scanner extracts exactly the token, and accepts it when it has at least 8 characters. */
  lemma ScanOfCard(prefix: string, token: string, g: Guest, pageUrl: string)
    requires pageUrl == prefix + "/" + token && '/' !in token
    requires g.accessToken == Some(token)
    ensures var v := View(false, Ok(Some(g)), pageUrl);
            v.Card? && ExtractToken(v.qrValue) == token
            && (ScanOutcome(v.qrValue) == Success <==> |token| >= MinTokenLength)
  {
    ExtractAfterSlash(prefix, token);
  }

  /** Typing the card's access code into the scanner's manual box is accepted when the token
      has at least 8 characters and its first 8 hold no "/" and no white space. */
  lemma ManualEntryOfCard(token: string)
    requires |token| >= ShortCodeLength
    requires forall i :: 0 <= i < ShortCodeLength ==> token[i] != '/' && !IsSpace(token[i])
    ensures ManualOutcome(ClampManualInput(AccessCode(Some(token)))) == Some(Success)
  {
    var code := AccessCode(Some(token));
    assert forall i :: 0 <= i < |code| ==> code[i] == token[i];
    var typed := ClampManualInput(code);
    assert typed == ToUpper(code);
    UpperKeepsClasses(code);
    TrimNoop(typed);
    ToUpperNormal(code);
    assert NormalizeManualCode(typed) == typed;
    ManualOutcomeIff(typed);
  }
}
