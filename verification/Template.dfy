/** Notification templates, report link and truncation (crates/yandex-messenger/src/lib.rs). */
module Template {
  import opened Text

  const MAX_TEXT_CHARS: nat := 6000

  datatype Fields = Fields(user: string, repository: string, format: string, target: string, reason: string,
                           policyId: string, vulnerabilityIds: string, reportUrl: string, timestamp: string)

  const EMPTY: Fields := Fields("", "", "", "", "", "", "", "", "")

  function PlaceholderValue(key: string, f: Fields): Option<string> {
    if key == "user" then Some(f.user)
    else if key == "repository" then Some(f.repository)
    else if key == "format" then Some(f.format)
    else if key == "target" then Some(f.target)
    else if key == "reason" then Some(f.reason)
    else if key == "policy_id" then Some(f.policyId)
    else if key == "vulnerability_ids" then Some(f.vulnerabilityIds)
    else if key == "report_url" then Some(f.reportUrl)
    else if key == "timestamp" then Some(f.timestamp)
    else None
  }

  /** The nine placeholders and the fields they show; no other key is known. */
  lemma PlaceholdersByName(key: string, f: Fields)
    ensures PlaceholderValue("user", f) == Some(f.user)
    ensures PlaceholderValue("repository", f) == Some(f.repository)
    ensures PlaceholderValue("format", f) == Some(f.format)
    ensures PlaceholderValue("target", f) == Some(f.target)
    ensures PlaceholderValue("reason", f) == Some(f.reason)
    ensures PlaceholderValue("policy_id", f) == Some(f.policyId)
    ensures PlaceholderValue("vulnerability_ids", f) == Some(f.vulnerabilityIds)
    ensures PlaceholderValue("report_url", f) == Some(f.reportUrl)
    ensures PlaceholderValue("timestamp", f) == Some(f.timestamp)
    ensures PlaceholderValue(key, f).Some? <==>
            key in {"user", "repository", "format", "target", "reason", "policy_id", "vulnerability_ids",
                    "report_url", "timestamp"}
  {
  }

  // ---- Tokens ----

  datatype Token = Lit(text: string) | Hole(key: string)

  function Literal(text: string): seq<Token> {
    if text == [] then [] else [Lit(text)]
  }

  /** A brace is opened, and closed after that. */
  predicate HasHole(t: string) {
    var open := Find(t, '{');
    open < |t| && Find(t[open + 1..], '}') < |t| - open - 1
  }

  /** The text before the first hole, its key, and what follows it. */
  function TextOf(t: string): string
    requires HasHole(t)
  {
    t[..Find(t, '{')]
  }

  function KeyOf(t: string): string
    requires HasHole(t)
  {
    var after := t[Find(t, '{') + 1..];
    after[..Find(after, '}')]
  }

  function RestOf(t: string): (r: string)
    requires HasHole(t)
    ensures |r| < |t|
  {
    var after := t[Find(t, '{') + 1..];
    after[Find(after, '}') + 1..]
  }

  function Pieces(text: string, key: string, ts: seq<Token>): seq<Token> {
    Literal(text) + [Hole(key)] + ts
  }

  /** Text up to `{`, a key up to the next `}`; without a closing brace the rest is text. */
  function Tokenize(t: string): seq<Token>
    decreases |t|
  {
    if HasHole(t) then Pieces(TextOf(t), KeyOf(t), Tokenize(RestOf(t))) else Literal(t)
  }

  function PrintToken(k: Token): string {
    match k
    case Lit(text) => text
    case Hole(key) => "{" + key + "}"
  }

  function Print(ts: seq<Token>): string {
    if ts == [] then [] else PrintToken(ts[0]) + Print(ts[1..])
  }

  /** A known hole becomes its value, an unknown one its own spelling. Values are never looked at. */
  function Fill(k: Token, f: Fields): string {
    if k.Hole? && PlaceholderValue(k.key, f).Some? then PlaceholderValue(k.key, f).value else PrintToken(k)
  }

  function Substitute(ts: seq<Token>, f: Fields): string {
    if ts == [] then [] else Fill(ts[0], f) + Substitute(ts[1..], f)
  }

  /** The token lists that tokenising can produce. */
  ghost predicate Canonical(ts: seq<Token>) {
    if ts == [] then true
    else if ts[0].Hole? then '}' !in ts[0].key && Canonical(ts[1..])
    else
      && ts[0].text != []
      && ((ts[1..] == [] && ('{' in ts[0].text ==> '}' !in ts[0].text[Find(ts[0].text, '{')..]))
          || ('{' !in ts[0].text && ts[1..] != [] && ts[1].Hole? && Canonical(ts[1..])))
  }

  lemma PrintCons(k: Token, ts: seq<Token>)
    ensures Print([k] + ts) == PrintToken(k) + Print(ts)
  {
    assert ([k] + ts)[1..] == ts;
  }

  lemma SubstituteCons(k: Token, ts: seq<Token>, f: Fields)
    ensures Substitute([k] + ts, f) == Fill(k, f) + Substitute(ts, f)
  {
    assert ([k] + ts)[1..] == ts;
  }

  /** A literal, empty or not, contributes its text. */
  lemma LiteralFirst(text: string, ts: seq<Token>, f: Fields)
    ensures Print(Literal(text) + ts) == text + Print(ts)
    ensures Substitute(Literal(text) + ts, f) == text + Substitute(ts, f)
  {
    if text == [] {
      assert Literal(text) + ts == ts;
    } else {
      PrintCons(Lit(text), ts);
      SubstituteCons(Lit(text), ts, f);
    }
  }

  lemma LiteralPrints(text: string, f: Fields)
    ensures Print(Literal(text)) == text && Substitute(Literal(text), f) == text
  {
    LiteralFirst(text, [], f);
    assert Literal(text) + [] == Literal(text);
  }

  lemma SplitAtHole(t: string, open: nat, close: nat)
    requires open < |t| && t[open] == '{' && open + 1 + close < |t| && t[open + 1 + close] == '}'
    ensures t == t[..open] + ['{'] + (t[open + 1..][..close] + ['}'] + t[open + 1..][close + 1..])
  {
  }

  function Around(text: string, key: string, rest: string): string {
    text + ['{'] + (key + ['}'] + rest)
  }

  /** A template is the text, key and rest of its first hole, put together. */
  lemma HoleParts(t: string)
    requires HasHole(t)
    ensures t == Around(TextOf(t), KeyOf(t), RestOf(t)) && '{' !in TextOf(t) && '}' !in KeyOf(t)
  {
    var open := Find(t, '{');
    SplitAtHole(t, open, Find(t[open + 1..], '}'));
  }

  /** And they are the only parts it can be put together from. */
  lemma PartsOf(text: string, key: string, rest: string)
    requires '{' !in text && '}' !in key
    ensures var t := Around(text, key, rest); HasHole(t) && TextOf(t) == text && KeyOf(t) == key && RestOf(t) == rest
  {
    var after := key + ['}'] + rest;
    var t := text + ['{'] + after;
    FindAfter(text, '{', after);
    FindAfter(key, '}', rest);
    assert t[|text| + 1..] == after;
    assert t[..|text|] == text;
    assert after[..|key|] == key;
    assert after[|key| + 1..] == rest;
  }

  lemma TokenizeHole(t: string)
    requires HasHole(t)
    ensures Tokenize(t) == Pieces(TextOf(t), KeyOf(t), Tokenize(RestOf(t)))
  {
    hide HasHole, TextOf, KeyOf, RestOf, Pieces, Literal;
  }

  lemma TokenizeNoHole(t: string)
    requires !HasHole(t)
    ensures Tokenize(t) == Literal(t)
  {
    hide HasHole, TextOf, KeyOf, RestOf, Pieces, Literal;
  }

  lemma TokenizeAround(text: string, key: string, rest: string)
    requires '{' !in text && '}' !in key
    ensures Tokenize(Around(text, key, rest)) == Pieces(text, key, Tokenize(rest))
  {
    hide *;
    PartsOf(text, key, rest);
    TokenizeHole(Around(text, key, rest));
  }

  lemma PiecesRegroup(text: string, key: string, ts: seq<Token>)
    ensures Pieces(text, key, ts) == Literal(text) + ([Hole(key)] + ts)
  {
  }

  lemma PrintPieces(text: string, key: string, ts: seq<Token>)
    ensures Print(Pieces(text, key, ts)) == Around(text, key, Print(ts))
  {
    hide Print, Substitute, Pieces, Literal;
    PiecesRegroup(text, key, ts);
    LiteralFirst(text, [Hole(key)] + ts, EMPTY);
    PrintCons(Hole(key), ts);
    HoleSpelling(text, key, Print(ts));
  }

  lemma HoleSpelling(text: string, key: string, rest: string)
    ensures text + ("{" + key + "}" + rest) == Around(text, key, rest)
  {
  }

  lemma Append2(a: string, s: string, i: nat)
    requires i <= |s|
    ensures a + s[..i] + s[i..] == a + s
  {
  }

  lemma Append3(a: string, b: string, c: string, d: string)
    ensures a + (b + (c + d)) == a + b + c + d
  {
  }

  lemma CanonicalPieces(text: string, key: string, ts: seq<Token>)
    requires '{' !in text && '}' !in key && Canonical(ts)
    ensures Canonical(Pieces(text, key, ts))
  {
    var tail := [Hole(key)] + ts;
    assert tail[1..] == ts;
    assert Canonical(tail);
    if text == [] {
      assert Pieces(text, key, ts) == tail;
    } else {
      assert Pieces(text, key, ts) == [Lit(text)] + tail;
      assert Pieces(text, key, ts)[1..] == tail;
    }
  }

  /** Text that no hole follows. */
  lemma CanonicalLiteral(t: string)
    requires !HasHole(t)
    ensures Canonical(Literal(t))
  {
    var open := Find(t, '{');
    if open < |t| {
      var after := t[open + 1..];
      assert t[open..] == [t[open]] + after;
      assert forall i :: 0 <= i < |after| ==> after[i] != '}';
    }
  }

  /** Tokenising loses nothing and yields a canonical list. */
  lemma {:induction false} PrintTokenize(t: string)
    ensures Print(Tokenize(t)) == t
    ensures Canonical(Tokenize(t))
    decreases |t|
  {
    hide *;
    if HasHole(t) {
      PrintTokenize(RestOf(t));
      HoleParts(t);
      TokenizeHole(t);
      PrintPieces(TextOf(t), KeyOf(t), Tokenize(RestOf(t)));
      CanonicalPieces(TextOf(t), KeyOf(t), Tokenize(RestOf(t)));
    } else {
      TokenizeNoHole(t);
      LiteralPrints(t, EMPTY);
      CanonicalLiteral(t);
    }
  }

  /** A canonical list is what its printed form tokenises to: tokenising is the only reading. */
  lemma {:induction false} TokenizePrint(ts: seq<Token>)
    requires Canonical(ts)
    ensures Tokenize(Print(ts)) == ts
  {
    hide Tokenize, Print;
    if ts == [] {
      LiteralPrints([], EMPTY);
      TokenizeLiteral([]);
    } else if ts[0].Hole? {
      TokenizePrint(ts[1..]);
      TokenizePrintPieces([], ts[0].key, ts[1..]);
      assert ts == Pieces([], ts[0].key, ts[1..]);
    } else if ts[1..] == [] {
      assert ts == Literal(ts[0].text);
      LiteralPrints(ts[0].text, EMPTY);
      TokenizeLiteral(ts[0].text);
    } else {
      assert ts[1..][1..] == ts[2..];
      TokenizePrint(ts[2..]);
      TokenizePrintPieces(ts[0].text, ts[1].key, ts[2..]);
      assert ts == Pieces(ts[0].text, ts[1].key, ts[2..]);
    }
  }

  lemma TokenizeLiteral(text: string)
    requires '{' in text ==> '}' !in text[Find(text, '{')..]
    ensures Tokenize(text) == Literal(text)
  {
    hide Tokenize;
    var open := Find(text, '{');
    if open < |text| {
      var after := text[open + 1..];
      assert text[open..] == [text[open]] + after;
      FindUnique(after, '}', |after|);
    }
    TokenizeNoHole(text);
  }

  lemma TokenizePrintPieces(text: string, key: string, ts: seq<Token>)
    requires '{' !in text && '}' !in key && Tokenize(Print(ts)) == ts
    ensures Tokenize(Print(Pieces(text, key, ts))) == Pieces(text, key, ts)
  {
    hide *;
    PrintPieces(text, key, ts);
    TokenizeAround(text, key, Print(ts));
  }

  // ---- The scanning loop ----

  /** What is rendered so far, and the meaning of the rest, make up the meaning of the template. */
  ghost predicate Continues(rendered: string, rest: string, template: string, f: Fields) {
    rendered + Substitute(Tokenize(rest), f) == Substitute(Tokenize(template), f)
  }

  /** The index-scanning loop computes tokenise-then-substitute. */
  method RenderTemplate(template: string, f: Fields) returns (rendered: string)
    ensures rendered == Substitute(Tokenize(template), f)
  {
    hide Tokenize, Substitute, Continues, Fill;
    rendered := [];
    var rest := template;
    BeginRendering(template, f);
    while Find(rest, '{') < |rest|
      invariant Continues(rendered, rest, template, f)
      decreases |rest|
    {
      var open := Find(rest, '{');
      var after := rest[open + 1..];
      var close := Find(after, '}');
      if close == |after| {
        EndRendering(rendered, rest, template, f);
        return rendered + rest[..open] + rest[open..];
      }
      RenderHole(rendered, rest, template, f);
      var filled := FillHole(after[..close], f);
      rendered := rendered + rest[..open] + filled;
      rest := after[close + 1..];
    }
    EndRendering(rendered, rest, template, f);
    return rendered + rest;
  }

  method FillHole(key: string, f: Fields) returns (filled: string)
    ensures filled == Fill(Hole(key), f)
  {
    match PlaceholderValue(key, f) {
      case Some(value) => filled := value;
      case None => filled := "{" + key + "}";
    }
  }

  lemma BeginRendering(template: string, f: Fields)
    ensures Continues([], template, template, f)
  {
    hide Tokenize, Substitute;
  }

  lemma EndRendering(rendered: string, rest: string, template: string, f: Fields)
    requires Continues(rendered, rest, template, f) && !HasHole(rest)
    ensures rendered + rest == Substitute(Tokenize(template), f)
    ensures var open := Find(rest, '{'); rendered + rest[..open] + rest[open..] == rendered + rest
  {
    hide Tokenize, Substitute, Literal;
    TokenizeNoHole(rest);
    LiteralPrints(rest, f);
    Append2(rendered, rest, Find(rest, '{'));
  }

  lemma RenderHole(rendered: string, rest: string, template: string, f: Fields)
    requires Continues(rendered, rest, template, f) && HasHole(rest)
    ensures Continues(rendered + TextOf(rest) + Fill(Hole(KeyOf(rest)), f), RestOf(rest), template, f)
  {
    hide Tokenize, Substitute, Pieces, TextOf, KeyOf, RestOf, HasHole, Fill;
    TokenizeHole(rest);
    SubstitutePieces(TextOf(rest), KeyOf(rest), Tokenize(RestOf(rest)), f);
    Append3(rendered, TextOf(rest), Fill(Hole(KeyOf(rest)), f), Substitute(Tokenize(RestOf(rest)), f));
  }

  lemma SubstitutePieces(text: string, key: string, ts: seq<Token>, f: Fields)
    ensures Substitute(Pieces(text, key, ts), f) == text + (Fill(Hole(key), f) + Substitute(ts, f))
  {
    hide Print, Substitute, Pieces, Literal;
    PiecesRegroup(text, key, ts);
    LiteralFirst(text, [Hole(key)] + ts, f);
    SubstituteCons(Hole(key), ts, f);
  }

  /** Substitution, token by token: text stays, a known hole shows its value, an unknown one stays as it is
      spelled, and nothing inserted is read again. */
  lemma SubstituteByToken(text: string, key: string, rest: seq<Token>, f: Fields)
    ensures Substitute([], f) == ""
    ensures Substitute([Lit(text)] + rest, f) == text + Substitute(rest, f)
    ensures Substitute([Hole(key)] + rest, f)
            == (if PlaceholderValue(key, f).Some? then PlaceholderValue(key, f).value else "{" + key + "}")
               + Substitute(rest, f)
  {
    SubstituteCons(Lit(text), rest, f);
    SubstituteCons(Hole(key), rest, f);
  }

  // ---- Link and truncation ----

  function Render(template: string, f: Fields): string {
    var rendered := Substitute(Tokenize(template), f);
    if Contains(template, "{report_url}") then rendered
    else rendered + (if rendered != [] && rendered[|rendered| - 1] != '\n' then "\n" else "") + "Report: " + f.reportUrl
  }

  function Suffix(url: string): string {
    "\nReport: " + url
  }

  function Truncate(text: string, url: string): string {
    if |text| <= MAX_TEXT_CHARS then text
    else if |Suffix(url)| >= MAX_TEXT_CHARS then Suffix(url)[..MAX_TEXT_CHARS]
    else text[..MAX_TEXT_CHARS - |Suffix(url)|] + Suffix(url)
  }

  function Message(template: string, f: Fields): string {
    Truncate(Render(template, f), f.reportUrl)
  }

  /** Without the placeholder the link is appended on a line of its own; a text that is too long is cut so
      that the link line still ends it, and fills the limit exactly. */
  lemma MessageByName(template: string, f: Fields)
    ensures var body := Substitute(Tokenize(template), f);
            var text := Render(template, f);
            && (Contains(template, "{report_url}") ==> text == body)
            && (!Contains(template, "{report_url}") ==>
                  text == body + "Report: " + f.reportUrl || text == body + "\nReport: " + f.reportUrl)
            && (!Contains(template, "{report_url}") && text == body + "Report: " + f.reportUrl ==>
                  body == [] || body[|body| - 1] == '\n')
            && (|text| <= 6000 ==> Message(template, f) == text)
            && (|text| > 6000 && 9 + |f.reportUrl| < 6000 ==>
                  |Message(template, f)| == 6000
                  && exists kept :: kept <= text && Message(template, f) == kept + ("\nReport: " + f.reportUrl))
  {
    hide Tokenize, Substitute, Contains;
    var body, text := Substitute(Tokenize(template), f), Render(template, f);
    assert |Suffix(f.reportUrl)| == 9 + |f.reportUrl|;
    NewlineFirst(body, f.reportUrl);
    if |text| > 6000 && 9 + |f.reportUrl| < 6000 {
      var kept := text[..6000 - |Suffix(f.reportUrl)|];
      assert Message(template, f) == kept + ("\nReport: " + f.reportUrl);
    }
  }

  lemma NewlineFirst(body: string, url: string)
    ensures body + "\n" + "Report: " + url == body + "\nReport: " + url
    ensures body + "" + "Report: " + url == body + "Report: " + url
    ensures body + "Report: " + url != body + "\nReport: " + url
  {
    assert "\n" + "Report: " == "\nReport: ";
    assert |body + "Report: " + url| != |body + "\nReport: " + url|;
  }

  /** A long text keeps the whole link whenever the link line fits at all. */
  lemma TruncationKeepsLink(text: string, url: string)
    requires |text| > MAX_TEXT_CHARS && |Suffix(url)| <= MAX_TEXT_CHARS
    ensures Contains(Truncate(text, url), url)
  {
    var kept := text[..MAX_TEXT_CHARS - |Suffix(url)|];
    ContainsAt(kept + "\nReport: ", url, "");
    assert Suffix(url)[..|Suffix(url)|] == Suffix(url);
    assert Truncate(text, url) == kept + "\nReport: " + url + "";
  }

  lemma {:induction false} HoleShows(ts: seq<Token>, f: Fields)
    requires Hole("report_url") in ts
    ensures Contains(Substitute(ts, f), f.reportUrl)
  {
    if ts[0] == Hole("report_url") {
      ContainsAt("", f.reportUrl, Substitute(ts[1..], f));
      assert Substitute(ts, f) == "" + f.reportUrl + Substitute(ts[1..], f);
    } else {
      HoleShows(ts[1..], f);
      var tail := Substitute(ts[1..], f);
      ContainsAfter(Fill(ts[0], f), tail, f.reportUrl);
    }
  }

  lemma {:induction false} LongerThanEmpty(ts: seq<Token>, f: Fields)
    ensures |Substitute(ts, f)| >= |Substitute(ts, EMPTY)|
  {
    if ts != [] {
      LongerThanEmpty(ts[1..], f);
    }
  }

  lemma {:induction false} WithoutHoleLinkUnused(ts: seq<Token>, f: Fields, url: string)
    requires Hole("report_url") !in ts
    ensures Substitute(ts, f.(reportUrl := url)) == Substitute(ts, f)
  {
    if ts != [] {
      assert ts[0] in ts;
      WithoutHoleLinkUnused(ts[1..], f, url);
    }
  }

  function CodePoint(k: nat): char
    requires k < 0xD800
  {
    k as char
  }

  lemma {:induction false} CharsBelow(n: nat)
    requires n <= 0xD800
    ensures |set k: nat | k < n :: CodePoint(k)| == n
  {
    if n > 0 {
      CharsBelow(n - 1);
      assert (set k: nat | k < n :: CodePoint(k)) == (set k: nat | k < n - 1 :: CodePoint(k)) + {CodePoint(n - 1)};
    }
  }

  lemma {:induction false} CharsOf(s: string)
    ensures |set i | 0 <= i < |s| :: s[i]| <= |s|
  {
    if s != [] {
      var t := s[..|s| - 1];
      CharsOf(t);
      assert (set i | 0 <= i < |s| :: s[i]) == (set i | 0 <= i < |t| :: t[i]) + {s[|s| - 1]};
    }
  }

  lemma SubsetCardinality(a: set<char>, b: set<char>)
    requires a <= b
    ensures |a| <= |b|
  {
    assert b == a + (b - a);
  }

  lemma UnusedChar(s: string) returns (c: char)
    requires |s| < 0xD800
    ensures c !in s
  {
    var used, low := set i | 0 <= i < |s| :: s[i], set k: nat | k < |s| + 1 :: CodePoint(k);
    CharsOf(s);
    CharsBelow(|s| + 1);
    if low <= used {
      SubsetCardinality(low, used);
    }
    c :| c in low && c !in used;
  }

  /** Every message obeys the channel's limit. */
  lemma MessageFits(template: string, f: Fields)
    ensures |Message(template, f)| <= MAX_TEXT_CHARS
  {
  }

  /** The template asks for the link in a way the renderer sees, or leaves it to be appended, or is
      so long that truncation appends it anyway. */
  ghost predicate LinkGuaranteed(template: string) {
    || !Contains(template, "{report_url}")
    || Hole("report_url") in Tokenize(template)
    || |Substitute(Tokenize(template), EMPTY)| > MAX_TEXT_CHARS
  }

  lemma LinkDelivered(template: string, f: Fields)
    requires LinkGuaranteed(template) && |Suffix(f.reportUrl)| <= MAX_TEXT_CHARS
    ensures Contains(Message(template, f), f.reportUrl)
  {
    var text := Render(template, f);
    if |text| > MAX_TEXT_CHARS {
      TruncationKeepsLink(text, f.reportUrl);
    } else if !Contains(template, "{report_url}") {
      var before := text[..|text| - |f.reportUrl|];
      ContainsAt(before, f.reportUrl, "");
      assert text == before + f.reportUrl + "";
    } else {
      LongerThanEmpty(Tokenize(template), f);
      HoleShows(Tokenize(template), f);
    }
  }

  /** Exactly which templates deliver every link that fits. The failing family: the placeholder is
      spelled in the template, but a stray brace before it hides it from the renderer. */
  lemma LinkDeliveredExactly(template: string)
    ensures LinkGuaranteed(template) <==>
            forall f: Fields :: |Suffix(f.reportUrl)| <= MAX_TEXT_CHARS ==> Contains(Message(template, f), f.reportUrl)
  {
    if LinkGuaranteed(template) {
      forall f: Fields | |Suffix(f.reportUrl)| <= MAX_TEXT_CHARS
        ensures Contains(Message(template, f), f.reportUrl)
      {
        LinkDelivered(template, f);
      }
    } else {
      var text := Substitute(Tokenize(template), EMPTY);
      var c := UnusedChar(text);
      var f := EMPTY.(reportUrl := [c]);
      WithoutHoleLinkUnused(Tokenize(template), EMPTY, [c]);
      assert Message(template, f) == text;
      if Contains(text, [c]) {
        ContainsOne(text, c);
      }
    }
  }

  // ---- How the placeholder is hidden ----

  /** Every brace opened in the text is closed in it. */
  ghost predicate Closed(t: string)
    decreases |t|
  {
    if HasHole(t) then Closed(RestOf(t)) else '{' !in t
  }

  lemma AppendToHole(text: string, key: string, rest: string, more: string)
    ensures Around(text, key, rest) + more == Around(text, key, rest + more)
  {
  }

  /** After a closed text, the next hole is read on its own. */
  lemma {:induction false} TokenizeAfterClosed(before: string, key: string, rest: string)
    requires Closed(before) && '}' !in key
    ensures Tokenize(before + Around([], key, rest)) == Tokenize(before) + ([Hole(key)] + Tokenize(rest))
    decreases |before|
  {
    hide Tokenize, Pieces, TextOf, KeyOf, RestOf, HasHole, Around, Literal;
    var more := Around([], key, rest);
    if HasHole(before) {
      var (text, first, before') := (TextOf(before), KeyOf(before), RestOf(before));
      HoleParts(before);
      TokenizeHole(before);
      TokenizeAfterClosed(before', key, rest);
      AppendToHole(text, first, before', more);
      TokenizeAround(text, first, before' + more);
      PiecesAppend(text, first, Tokenize(before'), [Hole(key)] + Tokenize(rest));
    } else {
      TextBefore(before, key, rest);
      TokenizeAround(before, key, rest);
      PiecesRegroup(before, key, Tokenize(rest));
      TokenizeNoHole(before);
    }
  }

  lemma TextBefore(text: string, key: string, rest: string)
    ensures text + Around([], key, rest) == Around(text, key, rest)
  {
  }

  lemma PiecesAppend(text: string, key: string, a: seq<Token>, b: seq<Token>)
    ensures Pieces(text, key, a + b) == Pieces(text, key, a) + b
  {
  }

  /** A template in which the placeholder is spelled behind an unclosed brace. */
  function Spelled(before: string, junk: string, after: string): string {
    before + Around([], junk + "{report_url", after)
  }

  /** The renderer reads the stray brace and the placeholder as one hole of another name. */
  lemma StrayBraceHides(before: string, junk: string, after: string)
    requires Closed(before) && '}' !in junk
    ensures Tokenize(Spelled(before, junk, after))
            == Tokenize(before) + ([Hole(junk + "{report_url")] + Tokenize(after))
    ensures junk + "{report_url" != "report_url" && Contains(Spelled(before, junk, after), "{report_url}")
  {
    hide Tokenize, Around, Closed;
    TokenizeAfterClosed(before, junk + "{report_url", after);
    assert |junk + "{report_url"| == |junk| + 11;
    ContainsAt(before + ['{'] + junk, "{report_url}", after);
    SpelledRegroup(before, junk, after);
  }

  lemma SpelledRegroup(before: string, junk: string, after: string)
    ensures Spelled(before, junk, after) == before + ['{'] + junk + "{report_url}" + after
  {
    assert "{report_url}" == "{report_url" + ['}'];
  }

  /** The whole failing family: with a stray brace before the placeholder, and no other placeholder that
      the renderer sees, the link is sure to be delivered only if the text is truncated anyway. */
  lemma HiddenPlaceholder(before: string, junk: string, after: string)
    requires Closed(before) && '}' !in junk
    requires Hole("report_url") !in Tokenize(before) && Hole("report_url") !in Tokenize(after)
    ensures var t := Spelled(before, junk, after);
            LinkGuaranteed(t) <==> |Substitute(Tokenize(t), EMPTY)| > MAX_TEXT_CHARS
  {
    hide Tokenize, Spelled, Substitute, Closed;
    StrayBraceHides(before, junk, after);
  }

  ghost predicate BehindStrayBrace(t: string) {
    exists before, junk, after :: Closed(before) && '}' !in junk && t == Spelled(before, junk, after)
  }

  /** And nothing else hides it: a placeholder that is spelled but not seen stands behind an unclosed
      brace. */
  lemma {:induction false} OnlyStrayBracesHide(t: string)
    requires Contains(t, "{report_url}") && Hole("report_url") !in Tokenize(t)
    ensures BehindStrayBrace(t)
    decreases |t|
  {
    hide Tokenize, BehindStrayBrace, TextOf, KeyOf, RestOf, HasHole, OccursAt;
    var p :| 0 <= p <= |t| && OccursAt(t, "{report_url}", p);
    HoleBeforePlaceholder(t, p);
    if EndOfHole(t) <= p {
      TokensOfHole(t);
      OccursInRest(t, p);
      OnlyStrayBracesHide(RestOf(t));
      StrayBraceDeeper(t);
    } else {
      FirstHoleHides(t, p);
    }
  }

  /** Where the first hole ends. */
  function EndOfHole(t: string): nat
    requires HasHole(t)
  {
    |TextOf(t)| + |KeyOf(t)| + 2
  }

  lemma HoleBeforePlaceholder(t: string, p: nat)
    requires OccursAt(t, "{report_url}", p)
    ensures HasHole(t) && |TextOf(t)| <= p
  {
    PlaceholderAt(t, p);
    var open := Find(t, '{');
    assert t[open + 1..][p + 11 - open - 1] == '}';
  }

  /** The key of the first hole and the tokens after it are tokens of the template. */
  lemma TokensOfHole(t: string)
    requires HasHole(t)
    ensures Hole(KeyOf(t)) in Tokenize(t) && forall k :: k in Tokenize(RestOf(t)) ==> k in Tokenize(t)
  {
    hide Tokenize, TextOf, KeyOf, RestOf, HasHole;
    TokenizeHole(t);
    PiecesContain(TextOf(t), KeyOf(t), Tokenize(RestOf(t)));
  }

  lemma PiecesContain(text: string, key: string, ts: seq<Token>)
    ensures Hole(key) in Pieces(text, key, ts) && forall k :: k in ts ==> k in Pieces(text, key, ts)
  {
    assert Pieces(text, key, ts)[|Literal(text)|] == Hole(key);
  }

  lemma PlaceholderAt(t: string, p: nat)
    requires OccursAt(t, "{report_url}", p)
    ensures p + 12 <= |t| && t[p] == '{' && t[p + 11] == '}'
    ensures forall i :: p <= i < p + 11 ==> t[i] != '}'
  {
    var word := "{report_url}";
    var found := t[p..p + 12];
    assert found == word;
    forall i | p <= i < p + 12
      ensures t[i] == word[i - p]
    {
      assert t[i] == found[i - p];
    }
  }

  lemma PlaceholderKey(t: string, p: nat)
    requires OccursAt(t, "{report_url}", p)
    ensures t[p + 1..p + 11] == "report_url"
  {
    var found := t[p..p + 12];
    assert found == "{report_url}";
    assert t[p + 1..p + 11] == found[1..11];
  }

  lemma SplitAround(t: string, a: nat, b: nat, c: nat)
    requires a < b <= c <= |t|
    ensures t == t[..a] + [t[a]] + t[a + 1..b] + t[b..c] + t[c..]
  {
  }

  lemma SpelledAt(t: string, p: nat, open: nat)
    requires OccursAt(t, "{report_url}", p) && open < p && t[open] == '{'
    ensures t == Spelled(t[..open], t[open + 1..p], t[p + 12..])
  {
    hide Spelled;
    assert t[p..p + 12] == "{report_url}";
    SplitAround(t, open, p, p + 12);
    SpelledRegroup(t[..open], t[open + 1..p], t[p + 12..]);
  }

  lemma OccursInRest(t: string, p: nat)
    requires OccursAt(t, "{report_url}", p) && HasHole(t) && EndOfHole(t) <= p
    ensures Contains(RestOf(t), "{report_url}")
  {
    var n := EndOfHole(t);
    assert RestOf(t) == t[n..];
    assert t[n..][p - n..p - n + 12] == t[p..p + 12];
    assert OccursAt(RestOf(t), "{report_url}", p - n);
  }

  lemma StrayBraceDeeper(t: string)
    requires HasHole(t) && BehindStrayBrace(RestOf(t))
    ensures BehindStrayBrace(t)
  {
    hide TextOf, KeyOf, RestOf, HasHole, Around;
    var before, junk, tail :| Closed(before) && '}' !in junk && RestOf(t) == Spelled(before, junk, tail);
    HoleParts(t);
    ClosedCons(TextOf(t), KeyOf(t), before);
    AppendToHole(TextOf(t), KeyOf(t), before, Around([], junk + "{report_url", tail));
    assert t == Spelled(Around(TextOf(t), KeyOf(t), before), junk, tail);
  }

  lemma ClosedCons(text: string, key: string, before: string)
    requires '{' !in text && '}' !in key && Closed(before)
    ensures Closed(Around(text, key, before))
  {
    hide TextOf, KeyOf, RestOf, HasHole, Around;
    PartsOf(text, key, before);
  }

  lemma FirstHoleHides(t: string, p: nat)
    requires OccursAt(t, "{report_url}", p) && HasHole(t) && |TextOf(t)| <= p < EndOfHole(t)
    requires Hole("report_url") !in Tokenize(t)
    ensures BehindStrayBrace(t)
  {
    hide Tokenize, Spelled, TextOf, KeyOf, RestOf, HasHole;
    TokensOfHole(t);
    KeyAtPlaceholder(t, p);
    assert |TextOf(t)| < p;
    SpelledAt(t, p, |TextOf(t)|);
  }

  /** The hole that reaches into the placeholder ends with it. */
  lemma KeyAtPlaceholder(t: string, p: nat)
    requires OccursAt(t, "{report_url}", p) && HasHole(t) && |TextOf(t)| <= p < EndOfHole(t)
    ensures |TextOf(t)| == p ==> KeyOf(t) == "report_url"
    ensures var n := |TextOf(t)|; t[n] == '{' && Closed(t[..n]) && (n < p ==> '}' !in t[n + 1..p])
  {
    var n := |TextOf(t)|;
    ClosesAtPlaceholder(t, p);
    PlaceholderKey(t, p);
    if n == p {
      assert KeyOf(t) == t[p + 1..p + 11];
    }
    FindUnique(t[..n], '{', n);
  }

  lemma ClosesAtPlaceholder(t: string, p: nat)
    requires OccursAt(t, "{report_url}", p) && HasHole(t) && |TextOf(t)| <= p < EndOfHole(t)
    ensures EndOfHole(t) == p + 12
    ensures forall i :: |TextOf(t)| < i < p + 11 ==> t[i] != '}'
  {
    PlaceholderAt(t, p);
    var open := Find(t, '{');
    var after := t[open + 1..];
    var close := Find(after, '}');
    assert forall i :: 0 <= i < |after| ==> after[i] == t[open + 1 + i];
    assert after[p + 11 - open - 1] == '}';
    assert after[close] == '}';
    forall i | open < i < p + 11
      ensures t[i] != '}'
    {
      assert t[i] == after[i - open - 1];
    }
  }
}
