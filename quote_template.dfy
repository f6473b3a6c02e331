// The quote's HTML template, as the document structure it produces from a
// render model: the header blocks, the items table and the closing blocks.
// Each `{{x}}` of the template is an `Escaped` fragment, each `{{{x}}}` a
// `Raw` one and fixed markup a `Markup` one; `{{#if x}}` tests JavaScript
// truthiness.

module QuoteTemplate {
  import opened Wrappers
  import opened Strings
  import opened QuotePdf

  datatype Fragment = Markup(text: string) | Escaped(value: string) | Raw(value: string)

  /** One line of text, as the template interleaves fixed text and values. */
  type Line = seq<Fragment>

  datatype Cell = Cell(content: Line, colspan: nat)
  datatype Row = Row(cells: seq<Cell>)
  datatype Table = Table(head: Row, body: seq<Row>, foot: seq<Row>)

  datatype Page = Page(
    clientBlock: seq<Line>,
    companyDescription: Option<Line>,
    companyBlock: seq<Line>,
    heading: Line,
    issued: Line,
    payment: Line,
    table: Table,
    paymentInfo: Option<Line>,
    penalty: Line,
    vatExempt: Option<Line>,
    footer: Option<Line>)

  // ---------------------------------------------------------------------
  // Handlebars' HTML escaping of `{{x}}`

  /** The characters `{{x}}` replaces by an entity. */
  predicate Special(c: char) {
    c == '&' || c == '<' || c == '>' || c == '"' || c == '\'' || c == '`' || c == '='
  }

  /** None of the characters that could open or close markup or an attribute occurs in `s`. */
  predicate NoMarkup(s: string) {
    '<' !in s && '>' !in s && '"' !in s && '\'' !in s && '`' !in s && '=' !in s
  }

  /** `s` holds no character `{{x}}` would replace. */
  predicate Plain(s: string) {
    '&' !in s && NoMarkup(s)
  }

  function EscapeChar(c: char): (r: string)
    ensures r != [] && NoMarkup(r)
    ensures Special(c) ==> r[0] == '&' && r[|r| - 1] == ';'
    ensures !Special(c) ==> r == [c]
  {
    match c
    case '&' => "&amp;"
    case '<' => "&lt;"
    case '>' => "&gt;"
    case '"' => "&quot;"
    case '\'' => "&#x27;"
    case '`' => "&#x60;"
    case '=' => "&#x3D;"
    case _ => [c]
  }

  /** The text `{{x}}` writes for a value `x`: no markup character survives. */
  function Escape(s: string): (r: string)
    ensures NoMarkup(r)
    ensures |r| >= |s|
    ensures Plain(s) ==> r == s
    decreases |s|
  {
    if s == [] then []
    else
      assert s[0] in s;
      assert Plain(s) ==> Plain(s[1..]) by {
        assert forall c :: c in s[1..] ==> c in s;
      }
      EscapeChar(s[0]) + Escape(s[1..])
  }

  /** The text a fragment writes into the page: values in double braces escaped, the others as they are. */
  function FragmentText(f: Fragment): (r: string)
    ensures f.Escaped? ==> NoMarkup(r) && Unescape(r) == f.value
    ensures f.Raw? ==> r == f.value
    ensures f.Markup? ==> r == f.text
  {
    match f
    case Markup(t) => t
    case Escaped(v) => EscapeRoundTrip(v); Escape(v)
    case Raw(v) => v
  }

  /** The text of a line: its fragments' texts one after the other. */
  function LineText(l: Line): string
    decreases |l|
  {
    if l == [] then [] else FragmentText(l[0]) + LineText(l[1..])
  }

  lemma LineTextOne(a: Fragment)
    ensures LineText([a]) == FragmentText(a)
  {
    assert [a][1..] == [];
  }

  lemma LineTextThree(a: Fragment, b: Fragment, c: Fragment)
    ensures LineText([a, b, c]) == FragmentText(a) + FragmentText(b) + FragmentText(c)
  {
    calc {
      LineText([a, b, c]);
      == { assert [a, b, c][1..] == [b, c]; }
      FragmentText(a) + LineText([b, c]);
      == { LineTextTwo(b, c); }
      FragmentText(a) + (FragmentText(b) + FragmentText(c));
    }
  }

  lemma LineTextTwo(a: Fragment, b: Fragment)
    ensures LineText([a, b]) == FragmentText(a) + FragmentText(b)
  {
    assert [a, b][1..] == [b];
    LineTextOne(b);
  }

  /** What a browser reads back from an escaped value: the seven entities decoded. */
  function Unescape(s: string): string
    decreases |s|
  {
    if s == [] then []
    else if IsPrefix("&amp;", s) then "&" + Unescape(s[5..])
    else if IsPrefix("&lt;", s) then "<" + Unescape(s[4..])
    else if IsPrefix("&gt;", s) then ">" + Unescape(s[4..])
    else if IsPrefix("&quot;", s) then "\"" + Unescape(s[6..])
    else if IsPrefix("&#x27;", s) then "'" + Unescape(s[6..])
    else if IsPrefix("&#x60;", s) then "`" + Unescape(s[6..])
    else if IsPrefix("&#x3D;", s) then "=" + Unescape(s[6..])
    else [s[0]] + Unescape(s[1..])
  }

  /** A text starting with a prefix agrees with it position by position. */
  lemma PrefixChars(p: string, s: string)
    requires IsPrefix(p, s)
    ensures forall i :: 0 <= i < |p| ==> s[i] == p[i]
  {
    assert forall i :: 0 <= i < |p| ==> s[..|p|][i] == s[i];
  }

  lemma UnescapePlain(s: string)
    requires s != [] && s[0] != '&'
    ensures Unescape(s) == [s[0]] + Unescape(s[1..])
  {
    NotPrefixAt("&amp;", s, 0);
    NotPrefixAt("&lt;", s, 0);
    NotPrefixAt("&gt;", s, 0);
    NotPrefixAt("&quot;", s, 0);
    NotPrefixAt("&#x27;", s, 0);
    NotPrefixAt("&#x60;", s, 0);
    NotPrefixAt("&#x3D;", s, 0);
  }

  lemma NotPrefixAt(p: string, s: string, i: nat)
    requires i < |p| && i < |s| && s[i] != p[i]
    ensures !IsPrefix(p, s)
  {
    if IsPrefix(p, s) {
      PrefixChars(p, s);
    }
  }

  lemma UnescapeChar(c: char, rest: string)
    ensures Unescape(EscapeChar(c) + rest) == [c] + Unescape(rest)
  {
    var e := EscapeChar(c);
    var s := e + rest;
    assert s[..|e|] == e;
    assert s[|e|..] == rest;
    assert forall i :: 0 <= i < |e| ==> s[i] == e[i];
    match c
    case '&' =>
    case '<' =>
      NotPrefixAt("&amp;", s, 1);
    case '>' =>
      NotPrefixAt("&amp;", s, 1);
      NotPrefixAt("&lt;", s, 1);
    case '"' =>
      NotPrefixAt("&amp;", s, 1);
      NotPrefixAt("&lt;", s, 1);
      NotPrefixAt("&gt;", s, 1);
    case '\'' =>
      NotPrefixAt("&amp;", s, 1);
      NotPrefixAt("&lt;", s, 1);
      NotPrefixAt("&gt;", s, 1);
      NotPrefixAt("&quot;", s, 1);
    case '`' =>
      NotPrefixAt("&amp;", s, 1);
      NotPrefixAt("&lt;", s, 1);
      NotPrefixAt("&gt;", s, 1);
      NotPrefixAt("&quot;", s, 1);
      NotPrefixAt("&#x27;", s, 3);
    case '=' =>
      NotPrefixAt("&amp;", s, 1);
      NotPrefixAt("&lt;", s, 1);
      NotPrefixAt("&gt;", s, 1);
      NotPrefixAt("&quot;", s, 1);
      NotPrefixAt("&#x27;", s, 3);
      NotPrefixAt("&#x60;", s, 3);
    case _ =>
      assert s == [c] + rest;
      UnescapePlain(s);
  }

  /** Escaping loses nothing: the page shows the value as it was. */
  lemma {:induction false} EscapeRoundTrip(s: string)
    ensures Unescape(Escape(s)) == s
  {
    if s != [] {
      UnescapeChar(s[0], Escape(s[1..]));
      EscapeRoundTrip(s[1..]);
      assert [s[0]] + s[1..] == s;
    }
  }

  // ---------------------------------------------------------------------
  // `{{vatRate}}`: JavaScript's `Number#toString` of a rate in hundredths

  function FractionText(frac: nat): (r: string)
    requires frac < 100
    ensures frac == 0 <==> r == ""
    ensures r != "" ==> r[0] == '.' && AllDigits(r[1..]) && 2 <= |r| <= 3
  {
    if frac == 0 then ""
    else if frac % 10 == 0 then "." + [DigitChar(frac / 10)]
    else "." + TwoDigits(frac)
  }

  /** The shortest decimal text of `h / 100`: no trailing zero decimals, no dot for a whole rate. */
  function FormatRate(h: int): string {
    (if h < 0 then "-" else "") + NatToString(Abs(h) / 100) + FractionText(Abs(h) % 100)
  }

  /** The rate written by the pieces of a text split at its dots, `digits[.d|.dd]`, in hundredths. */
  function RateOfPieces(parts: seq<string>): Option<nat> {
    if |parts| == 1 && parts[0] != [] && AllDigits(parts[0]) then
      Some(DigitsValue(parts[0]) * 100)
    else if |parts| == 2 && parts[0] != [] && AllDigits(parts[0]) && AllDigits(parts[1]) && 1 <= |parts[1]| <= 2 then
      Some(DigitsValue(parts[0]) * 100 + (if |parts[1]| == 1 then DigitsValue(parts[1]) * 10 else DigitsValue(parts[1])))
    else None
  }

  function ParseUnsignedRate(s: string): Option<nat> {
    RateOfPieces(Split(s, '.'))
  }

  function ParseRate(s: string): Option<int> {
    if |s| >= 1 && s[0] == '-' then
      match ParseUnsignedRate(s[1..])
      case Some(v) => if v > 0 then Some(0 - v) else None
      case None => None
    else ParseUnsignedRate(s)
  }

  lemma DigitsHaveNoDot(s: string)
    requires AllDigits(s)
    ensures '.' !in s
  {
    assert forall i :: 0 <= i < |s| ==> IsDigit(s[i]);
  }

  lemma ParseWholeRate(w: string)
    requires w != [] && AllDigits(w)
    ensures ParseUnsignedRate(w) == Some(DigitsValue(w) * 100)
  {
    DigitsHaveNoDot(w);
    SplitNoSeparator(w, '.');
  }

  lemma SplitAtDot(w: string, d: string)
    requires AllDigits(w) && AllDigits(d)
    ensures Split(w + ['.'] + d, '.') == [w, d]
  {
    DigitsHaveNoDot(w);
    DigitsHaveNoDot(d);
    SplitAfterFirst(w, '.', d);
    SplitNoSeparator(d, '.');
  }

  lemma RateOfTwoPieces(w: string, d: string)
    requires w != [] && AllDigits(w) && AllDigits(d) && 1 <= |d| <= 2
    ensures RateOfPieces([w, d]) == Some(DigitsValue(w) * 100 + (if |d| == 1 then DigitsValue(d) * 10 else DigitsValue(d)))
  {
    var parts := [w, d];
    assert parts[0] == w && parts[1] == d && |parts| == 2;
  }

  lemma ParseDecimalRate(w: string, d: string)
    requires w != [] && AllDigits(w) && AllDigits(d) && 1 <= |d| <= 2
    ensures ParseUnsignedRate(w + ['.'] + d)
         == Some(DigitsValue(w) * 100 + (if |d| == 1 then DigitsValue(d) * 10 else DigitsValue(d)))
  {
    SplitAtDot(w, d);
    RateOfTwoPieces(w, d);
  }

  lemma UnsignedRateRoundTrip(a: nat)
    ensures ParseUnsignedRate(NatToString(a / 100) + FractionText(a % 100)) == Some(a)
  {
    NatToStringRoundTrip(a / 100);
    if a % 100 == 0 {
      WholeRateRoundTrip(a);
    } else {
      DecimalRateRoundTrip(a);
    }
  }

  lemma WholeRateRoundTrip(a: nat)
    requires a % 100 == 0
    ensures ParseUnsignedRate(NatToString(a / 100) + FractionText(a % 100)) == Some(a)
  {
    var w := NatToString(a / 100);
    NatToStringRoundTrip(a / 100);
    assert w + FractionText(a % 100) == w;
    ParseWholeRate(w);
  }

  lemma DecimalRateRoundTrip(a: nat)
    requires a % 100 != 0
    ensures ParseUnsignedRate(NatToString(a / 100) + FractionText(a % 100)) == Some(a)
  {
    var w := NatToString(a / 100);
    var d := FractionText(a % 100)[1..];
    NatToStringRoundTrip(a / 100);
    assert w + FractionText(a % 100) == w + ['.'] + d;
    FractionDigits(a % 100);
    ParseDecimalRate(w, d);
  }

  /** The digits after the dot read back as the hundredths. */
  lemma FractionDigits(frac: nat)
    requires 0 < frac < 100
    ensures var d := FractionText(frac)[1..];
      (if |d| == 1 then DigitsValue(d) * 10 else DigitsValue(d)) == frac
  {
    if frac % 10 == 0 {
      var d := [DigitChar(frac / 10)];
      assert FractionText(frac)[1..] == d;
      assert DigitsValue(d) == frac / 10 by {
        assert d[..0] == [];
      }
    } else {
      assert FractionText(frac)[1..] == TwoDigits(frac);
    }
  }

  /** The rate text reads back as the stored rate. */
  lemma FormatRateRoundTrip(h: int)
    ensures ParseRate(FormatRate(h)) == Some(h)
  {
    var u := NatToString(Abs(h) / 100) + FractionText(Abs(h) % 100);
    if h < 0 {
      assert FormatRate(h) == "-" + u;
      NegativeRateRoundTrip(u, Abs(h));
    } else {
      NonNegativeRateRoundTrip(h);
    }
  }

  /** A rate of zero or more reads back without a sign. */
  lemma NonNegativeRateRoundTrip(a: nat)
    ensures ParseRate(FormatRate(a)) == Some(a)
  {
    var u := NatToString(a / 100) + FractionText(a % 100);
    assert Abs(a) == a;
    assert FormatRate(a) == [] + u == u;
    UnsignedRateRoundTrip(a);
    assert u[0] == NatToString(a / 100)[0];
    ParseUnsigned(u);
  }

  /** A negative rate reads back through its minus sign. */
  lemma NegativeRateRoundTrip(u: string, a: nat)
    requires a > 0 && u == NatToString(a / 100) + FractionText(a % 100)
    ensures ParseRate("-" + u) == Some(0 - a as int)
  {
    UnsignedRateRoundTrip(a);
    ParseNegated(u, a);
  }

  lemma ParseNegated(u: string, v: nat)
    requires ParseUnsignedRate(u) == Some(v) && v > 0
    ensures ParseRate("-" + u) == Some(0 - v as int)
  {
    assert ("-" + u)[0] == '-';
    assert ("-" + u)[1..] == u;
  }

  lemma ParseUnsigned(u: string)
    requires u != [] && IsDigit(u[0])
    ensures ParseRate(u) == ParseUnsignedRate(u)
  {
  }

  /** A whole rate is written without a decimal part, `20` for 20 %, `5.5` for 5.5 %. */
  lemma FormatRateExamples()
    ensures FormatRate(2000) == "20"
    ensures FormatRate(550) == "5.5"
    ensures FormatRate(0) == "0"
  {
    assert NatToString(20) == "20" by {
      assert NatToString(2) == "2";
    }
    assert NatToString(5) == "5";
    assert FractionText(50) == ".5";
  }

  // ---------------------------------------------------------------------
  // Header blocks

  function ClientBlock(m: RenderModel): (r: seq<Line>)
    ensures |r| == 4
    ensures LineText(r[0]) == Escape(m.client.name)
    ensures LineText(r[1]) == Escape(m.client.address)
    ensures LineText(r[2]) == Escape(m.client.postalCode) + " " + Escape(m.client.city)
    ensures LineText(r[3]) == Escape(m.client.country)
  {
    LineTextOne(Escaped(m.client.name));
    LineTextOne(Escaped(m.client.address));
    LineTextThree(Escaped(m.client.postalCode), Markup(" "), Escaped(m.client.city));
    LineTextOne(Escaped(m.client.country));
    [[Escaped(m.client.name)],
     [Escaped(m.client.address)],
     [Escaped(m.client.postalCode), Markup(" "), Escaped(m.client.city)],
     [Escaped(m.client.country)]]
  }

  /**
   * The client block of a generated quote is headed by the client's name,
   * or by the contact's first and last name when the client has none; the
   * reader of the page gets that name back from the escaped text.
   */
  lemma ClientHeading(quotes: map<string, Quote>, paymentMethods: map<string, PaymentMethod>, quoteId: string, env: Env)
    requires Loaded(quotes, quoteId) && quotes[quoteId].complementaryOptions != Some(Malformed)
    ensures var m := ProjectQuote(quotes, paymentMethods, quoteId, env).value;
      var c := quotes[quoteId].client;
      && Consistent(m)
      && Unescape(LineText(Render(m).clientBlock[0]))
         == (if c.name == "" then c.contactFirstname + " " + c.contactLastname else c.name)
  {
    var m := ProjectQuote(quotes, paymentMethods, quoteId, env).value;
    ProjectedModel(quotes, paymentMethods, quoteId, env);
    EscapeRoundTrip(m.client.name);
  }

  const MobileCaption := "Mobile : "
  const EmailCaption := "Email : "
  const SirenCaption := "SIREN : "
  const SiretCaption := "SIRET : "

  /** An optional `Label : value` line, shown when the value is non-empty. */
  function Contact(caption: string, value: string): (r: seq<Line>)
    ensures value == "" <==> r == []
    ensures value != "" ==> r == [[Markup(caption), Escaped(value)]]
  {
    if value == "" then [] else [[Markup(caption), Escaped(value)]]
  }

  /** How many lines an optional contact field contributes: one when set. */
  function Present(value: string): nat {
    if value != "" then 1 else 0
  }

  /**
   * The company's address block: the address lines always, then the phone,
   * e-mail, SIREN (legal id) and SIRET (VAT number) lines, each only when set.
   */
  function CompanyBlock(c: Company): (r: seq<Line>)
    ensures |r| == 3 + Present(c.phone) + Present(c.email) + Present(c.legalId) + Present(c.vat)
    ensures r[..3] == [[Escaped(c.address)], [Escaped(c.postalCode), Markup(" "), Escaped(c.city)], [Escaped(c.country)]]
    ensures [Markup(MobileCaption), Escaped(c.phone)] in r <==> c.phone != ""
    ensures [Markup(EmailCaption), Escaped(c.email)] in r <==> c.email != ""
    ensures [Markup(SirenCaption), Escaped(c.legalId)] in r <==> c.legalId != ""
    ensures [Markup(SiretCaption), Escaped(c.vat)] in r <==> c.vat != ""
    ensures c.phone != "" ==> r[3] == [Markup(MobileCaption), Escaped(c.phone)]
    ensures c.email != "" ==> r[3 + Present(c.phone)] == [Markup(EmailCaption), Escaped(c.email)]
    ensures c.legalId != "" ==> r[3 + Present(c.phone) + Present(c.email)] == [Markup(SirenCaption), Escaped(c.legalId)]
    ensures c.vat != "" ==> r[|r| - 1] == [Markup(SiretCaption), Escaped(c.vat)]
  {
    var address := [[Escaped(c.address)], [Escaped(c.postalCode), Markup(" "), Escaped(c.city)], [Escaped(c.country)]];
    var phone, email := Contact(MobileCaption, c.phone), Contact(EmailCaption, c.email);
    var siren, siret := Contact(SirenCaption, c.legalId), Contact(SiretCaption, c.vat);
    PhoneAndEmailLines(c, address, phone, email, siren, siret);
    LegalIdLines(c, address, phone, email, siren, siret);
    var r := address + phone + email + siren + siret;
    assert r[..3] == address;
    assert c.phone != "" ==> r[3] == phone[0];
    assert c.email != "" ==> r[3 + |phone|] == email[0];
    assert c.legalId != "" ==> r[3 + |phone| + |email|] == siren[0];
    assert c.vat != "" ==> r[|r| - 1] == siret[0];
    r
  }

  /** The phone and e-mail lines of the company block occur exactly when their fields are set. */
  lemma PhoneAndEmailLines(c: Company, address: seq<Line>, phone: seq<Line>, email: seq<Line>, siren: seq<Line>, siret: seq<Line>)
    requires address == [[Escaped(c.address)], [Escaped(c.postalCode), Markup(" "), Escaped(c.city)], [Escaped(c.country)]]
    requires phone == Contact(MobileCaption, c.phone) && email == Contact(EmailCaption, c.email)
    requires siren == Contact(SirenCaption, c.legalId) && siret == Contact(SiretCaption, c.vat)
    ensures [Markup(MobileCaption), Escaped(c.phone)] in address + phone + email + siren + siret <==> c.phone != ""
    ensures [Markup(EmailCaption), Escaped(c.email)] in address + phone + email + siren + siret <==> c.email != ""
  {
    assert MobileCaption[0] == 'M' && EmailCaption[0] == 'E' && SirenCaption[0] == 'S' && SiretCaption[0] == 'S';
  }

  /** The SIREN and SIRET lines of the company block occur exactly when their fields are set. */
  lemma LegalIdLines(c: Company, address: seq<Line>, phone: seq<Line>, email: seq<Line>, siren: seq<Line>, siret: seq<Line>)
    requires address == [[Escaped(c.address)], [Escaped(c.postalCode), Markup(" "), Escaped(c.city)], [Escaped(c.country)]]
    requires phone == Contact(MobileCaption, c.phone) && email == Contact(EmailCaption, c.email)
    requires siren == Contact(SirenCaption, c.legalId) && siret == Contact(SiretCaption, c.vat)
    ensures [Markup(SirenCaption), Escaped(c.legalId)] in address + phone + email + siren + siret <==> c.legalId != ""
    ensures [Markup(SiretCaption), Escaped(c.vat)] in address + phone + email + siren + siret <==> c.vat != ""
  {
    assert MobileCaption[0] == 'M' && EmailCaption[0] == 'E' && SirenCaption[4] == 'N' && SiretCaption[4] == 'T';
  }

  /** `Règlement : <method>` when the model has one, else payment on receipt. */
  function PaymentLine(paymentMethod: Option<string>): (r: Line)
    ensures Truthy(paymentMethod) ==> r == [Markup("R\U{E8}glement : "), Escaped(paymentMethod.value)]
    ensures !Truthy(paymentMethod) ==> r == [Markup("R\U{E8}glement : \U{C0} r\U{E9}ception")]
  {
    if Truthy(paymentMethod) then [Markup("R\U{E8}glement : "), Escaped(paymentMethod.value)]
    else [Markup("R\U{E8}glement : \U{C0} r\U{E9}ception")]
  }

  // ---------------------------------------------------------------------
  // The items table

  /** How many columns a row spans. */
  function Width(cells: seq<Cell>): nat {
    if cells == [] then 0 else cells[0].colspan + Width(cells[1..])
  }

  lemma WidthOfSingles(cells: seq<Cell>)
    requires forall i :: 0 <= i < |cells| ==> cells[i].colspan == 1
    ensures Width(cells) == |cells|
  {
    if cells != [] {
      WidthOfSingles(cells[1..]);
    }
  }

  function Single(content: Line): Cell {
    Cell(content, 1)
  }

  /** The column headings: description, the VAT rate only when VAT is shown, the amount. */
  function HeadRow(m: RenderModel): (r: Row)
    requires Consistent(m)
    ensures Width(r.cells) == |r.cells| == m.colSpan
    ensures r.cells[0] == Single([Escaped(m.labels.description)])
    ensures r.cells[|r.cells| - 1] == Single([Markup("Montant HT")])
    ensures m.showVAT ==> r.cells[1] == Single([Escaped(m.labels.vatRate)])
  {
    var cells := [Single([Escaped(m.labels.description)])]
      + (if m.showVAT then [Single([Escaped(m.labels.vatRate)])] else [])
      + [Single([Markup("Montant HT")])];
    WidthOfSingles(cells);
    Row(cells)
  }

  /** The cell showing an item's VAT rate, `20%`. */
  function RateCell(it: RenderItem): Cell {
    Single([Escaped(FormatRate(it.vatRate)), Markup("%")])
  }

  /**
   * One row per item: a section is a single heading cell across the whole
   * table, its description unescaped; any other item shows its description,
   * its VAT rate when VAT is shown, and its unit price with the currency.
   */
  function ItemRow(m: RenderModel, it: RenderItem): (r: Row)
    requires Consistent(m)
    ensures Width(r.cells) == m.colSpan
    ensures it.isSection ==> r.cells == [Cell([Raw(it.description)], m.colSpan)]
    ensures !it.isSection ==> |r.cells| == m.colSpan && r.cells[0] == Single([Raw(it.description)])
    ensures !it.isSection ==> r.cells[|r.cells| - 1] == Single([Escaped(it.unitPrice), Markup(" "), Escaped(m.currency)])
    ensures !it.isSection ==> (m.showVAT <==> RateCell(it) in r.cells)
  {
    if it.isSection then
      Row([Cell([Raw(it.description)], m.colSpan)])
    else
      var cells := [Single([Raw(it.description)])]
        + (if m.showVAT then [RateCell(it)] else [])
        + [Single([Escaped(it.unitPrice), Markup(" "), Escaped(m.currency)])];
      WidthOfSingles(cells);
      assert Single([Raw(it.description)]) != RateCell(it);
      Row(cells)
  }

  function Bold(caption: string): Line {
    [Markup("<strong>" + caption + "</strong>")]
  }

  function BoldAmount(amount: string, currency: string): Line {
    [Markup("<strong>"), Escaped(amount), Markup(" "), Escaped(currency), Markup("</strong>")]
  }

  /**
   * The totals: the pre-tax total, then the total with tax; both rows span
   * the table, padded with an empty cell in the VAT column when it is shown.
   * There is no row for the VAT total.
   */
  function FootRows(m: RenderModel): (r: seq<Row>)
    requires Consistent(m)
    ensures |r| == 2
    ensures forall k :: 0 <= k < 2 ==> Width(r[k].cells) == |r[k].cells| == m.colSpan
    ensures |r[0].cells| == |r[1].cells| == m.colSpan >= 2
    ensures r[0].cells[0] == Single(Bold("Total HT")) && r[1].cells[0] == Single(Bold("Total TTC"))
    ensures r[0].cells[|r[0].cells| - 1] == Single(BoldAmount(m.totalHT, m.currency))
    ensures r[1].cells[|r[1].cells| - 1] == Single(BoldAmount(m.totalTTC, m.currency))
    ensures m.showVAT ==> r[0].cells[1] == Single([]) && r[1].cells[1] == Single([])
    ensures forall k, i :: 0 <= k < 2 && 0 <= i < |r[k].cells| ==> r[k].cells[i] != Single(Bold("Total TVA"))
  {
    var pad := if m.showVAT then [Single([])] else [];
    var ht := [Single(Bold("Total HT"))] + pad + [Single(BoldAmount(m.totalHT, m.currency))];
    var ttc := [Single(Bold("Total TTC"))] + pad + [Single(BoldAmount(m.totalTTC, m.currency))];
    WidthOfSingles(ht);
    WidthOfSingles(ttc);
    assert Bold("Total TVA") != Bold("Total HT") && Bold("Total TVA") != Bold("Total TTC") by {
      assert Bold("Total TVA")[0].text[15] == 'V';
      assert Bold("Total TTC")[0].text[15] == 'T';
      assert |Bold("Total HT")[0].text| != |Bold("Total TVA")[0].text|;
    }
    [Row(ht), Row(ttc)]
  }

  function ItemsTable(m: RenderModel): (t: Table)
    requires Consistent(m)
    ensures |t.body| == |m.items|
    ensures forall k :: 0 <= k < |m.items| ==> t.body[k] == ItemRow(m, m.items[k])
  {
    Table(HeadRow(m), seq(|m.items|, k requires 0 <= k < |m.items| => ItemRow(m, m.items[k])), FootRows(m))
  }

  /** Every row of the table, heading, items and totals, spans the same columns. */
  lemma TableIsRectangular(m: RenderModel)
    requires Consistent(m)
    ensures var t := ItemsTable(m);
      && Width(t.head.cells) == m.colSpan
      && (forall k :: 0 <= k < |t.body| ==> Width(t.body[k].cells) == m.colSpan)
      && (forall k :: 0 <= k < |t.foot| ==> Width(t.foot[k].cells) == m.colSpan)
  {
  }

  // ---------------------------------------------------------------------
  // The whole page

  const PenaltyText := "En cas de retard de paiement, une p\U{E9}nalit\U{E9} de 3 fois le taux d'int\U{E9}r\U{EA}t l\U{E9}gal sera appliqu\U{E9}e, \U{E0} laquelle s'ajoutera une indemnit\U{E9} forfaitaire pour frais de recouvrement de 40\U{20AC}."

  /** A block shown only when its value is truthy. */
  function When(v: Option<string>, body: Line): (r: Option<Line>)
    ensures r.Some? <==> Truthy(v)
    ensures r.Some? ==> r.value == body
  {
    if Truthy(v) then Some(body) else None
  }

  function Render(m: RenderModel): Page
    requires Consistent(m)
  {
    Page(
      ClientBlock(m),
      if m.company.description != "" then Some([Escaped(m.company.description)]) else None,
      CompanyBlock(m.company),
      [Escaped(m.labels.quote), Markup(" N\U{B0} "), Escaped(m.number)],
      [Markup("Date d'\U{E9}mission : "), Escaped(m.date)],
      PaymentLine(m.paymentMethod),
      ItemsTable(m),
      When(m.paymentDetails, [Raw(m.paymentDetails.GetOr(""))]),
      [Markup(PenaltyText)],
      When(m.vatExemptText, [Escaped(m.vatExemptText.GetOr(""))]),
      When(m.footerText, [Escaped(m.footerText.GetOr("")), Markup(" - Page 1/1")]))
  }

  /**
   * The page of a model: the optional blocks appear exactly when their value
   * is set, the rich-text payment details unescaped and the exemption text
   * and footer escaped; the items table follows the VAT layout.
   */
  lemma RenderSpec(m: RenderModel)
    requires Consistent(m)
    ensures var p := Render(m);
      && (p.companyDescription.Some? <==> m.company.description != "")
      && (p.paymentInfo.Some? <==> Truthy(m.paymentDetails))
      && (Truthy(m.paymentDetails) ==> p.paymentInfo == Some([Raw(m.paymentDetails.value)]))
      && (p.vatExempt.Some? <==> Truthy(m.vatExemptText))
      && (Truthy(m.vatExemptText) ==> p.vatExempt == Some([Escaped(m.vatExemptText.value)]))
      && (p.footer.Some? <==> Truthy(m.footerText))
      && (Truthy(m.footerText) ==> p.footer == Some([Escaped(m.footerText.value), Markup(" - Page 1/1")]))
      && (Truthy(m.paymentDetails) ==> LineText(p.paymentInfo.value) == m.paymentDetails.value)
      && (Truthy(m.vatExemptText) ==> LineText(p.vatExempt.value) == Escape(m.vatExemptText.value))
      && (Truthy(m.footerText) ==> LineText(p.footer.value) == Escape(m.footerText.value) + " - Page 1/1")
      && |p.table.body| == |m.items|
      && |p.table.head.cells| == (if m.showVAT then 3 else 2)
  {
    if Truthy(m.paymentDetails) {
      LineTextOne(Raw(m.paymentDetails.value));
    }
    if Truthy(m.vatExemptText) {
      LineTextOne(Escaped(m.vatExemptText.value));
    }
    if Truthy(m.footerText) {
      LineTextTwo(Escaped(m.footerText.value), Markup(" - Page 1/1"));
    }
  }

  /**
   * A quote in euros with a priced line (2 at 100, 20 % VAT) followed by a
   * section heading, not VAT-exempt, with stored totals of 200, 40 and 240:
   * the totals read `200,00`, `40,00` and `240,00`, the priced row shows
   * `20%` in the VAT column and the section spans all three columns.
   */
  lemma PricedLineAndSection(quotes: map<string, Quote>, paymentMethods: map<string, PaymentMethod>, quoteId: string, env: Env,
                             service: string, heading: string)
    requires Loaded(quotes, quoteId)
    requires var q := quotes[quoteId];
      && q.currency == "EUR"
      && q.items == [Item(service, 2, 10000, 2000, Service, 0), Item(heading, 0, 0, 0, Section, 1)]
      && q.totalHT == 20000 && q.totalVAT == 4000 && q.totalTTC == 24000
      && q.vatExemptionReason == Some("none")
      && q.complementaryOptions.None?
    ensures ProjectQuote(quotes, paymentMethods, quoteId, env).Ok?
    ensures var m := ProjectQuote(quotes, paymentMethods, quoteId, env).value;
      && m.totalHT == "200,00" && m.totalVAT == "40,00" && m.totalTTC == "240,00"
      && m.showVAT && Consistent(m)
      && |Render(m).table.body| == 2 && |Render(m).table.body[0].cells| == 3
      && Render(m).table.body[0].cells[1] == Single([Escaped("20"), Markup("%")])
      && Render(m).table.body[0].cells[2] == Single([Escaped(m.items[0].unitPrice), Markup(" "), Escaped("EUR")])
      && Render(m).table.body[1].cells == [Cell([Raw(env.markdown(heading))], 3)]
  {
    var m := ProjectQuote(quotes, paymentMethods, quoteId, env).value;
    ScenarioModel(quotes, paymentMethods, quoteId, env, service, heading);
    ScenarioTable(m, env.markdown(heading));
  }

  lemma Shows200()
    ensures FormatMoney(20000) == "200,00"
  {
    assert NatToString(200) == "200" by {
      assert NatToString(20) == "20";
    }
    FormatWholeAmount(200);
  }

  lemma Shows40()
    ensures FormatMoney(4000) == "40,00"
  {
    assert NatToString(40) == "40";
    FormatWholeAmount(40);
  }

  lemma Shows240()
    ensures FormatMoney(24000) == "240,00"
  {
    assert NatToString(240) == "240" by {
      assert NatToString(24) == "24";
    }
    FormatWholeAmount(240);
  }

  lemma ScenarioModel(quotes: map<string, Quote>, paymentMethods: map<string, PaymentMethod>, quoteId: string, env: Env,
                      service: string, heading: string)
    requires Loaded(quotes, quoteId)
    requires var q := quotes[quoteId];
      && q.currency == "EUR"
      && q.items == [Item(service, 2, 10000, 2000, Service, 0), Item(heading, 0, 0, 0, Section, 1)]
      && q.totalHT == 20000 && q.totalVAT == 4000 && q.totalTTC == 24000
      && q.vatExemptionReason == Some("none")
      && q.complementaryOptions.None?
    ensures ProjectQuote(quotes, paymentMethods, quoteId, env).Ok?
    ensures var m := ProjectQuote(quotes, paymentMethods, quoteId, env).value;
      && m.totalHT == "200,00" && m.totalVAT == "40,00" && m.totalTTC == "240,00"
      && m.showVAT && Consistent(m) && m.currency == "EUR"
      && |m.items| == 2
      && m.items[0].vatRate == 2000 && !m.items[0].isSection
      && m.items[1].isSection && m.items[1].description == env.markdown(heading)
  {
    var q := quotes[quoteId];
    var config := q.company.value.pdfConfig.value;
    var payment := ResolvePayment(q, ReferencedMethod(q, paymentMethods), config);
    var m := BuildModel(q, q.company.value, config, DisplayClient(q.client), payment.0, payment.1, env);
    assert ProjectQuote(quotes, paymentMethods, quoteId, env) == Ok(m);
    assert m.items == ProjectItems(config, env.markdown, q.items);
    assert m.items[0] == ProjectItem(config, env.markdown, q.items[0]);
    assert m.items[1] == ProjectItem(config, env.markdown, q.items[1]);
    Shows200();
    Shows40();
    Shows240();
  }

  lemma ScenarioTable(m: RenderModel, heading: string)
    requires m.showVAT && Consistent(m) && m.currency == "EUR" && |m.items| == 2
    requires m.items[0].vatRate == 2000 && !m.items[0].isSection
    requires m.items[1].isSection && m.items[1].description == heading
    ensures |Render(m).table.body| == 2 && |Render(m).table.body[0].cells| == 3
    ensures Render(m).table.body[0].cells[1] == Single([Escaped("20"), Markup("%")])
    ensures Render(m).table.body[0].cells[2] == Single([Escaped(m.items[0].unitPrice), Markup(" "), Escaped("EUR")])
    ensures Render(m).table.body[1].cells == [Cell([Raw(heading)], 3)]
  {
    FormatRateExamples();
    var t := ItemsTable(m);
    assert t.body[0] == ItemRow(m, m.items[0]);
    assert t.body[1] == ItemRow(m, m.items[1]);
  }
}
