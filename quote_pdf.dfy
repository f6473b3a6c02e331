/**
 * Quote PDF generation: load a quote with its client, company and PDF
 * configuration, resolve the payment method, labels and VAT mentions, and
 * build the flat render model the quote template is filled with. Amounts are
 * integer cents (the source holds them as floating-point numbers).
 */
module QuotePdf {
  import opened Wrappers
  import opened Strings

  // ---------------------------------------------------------------------
  // Entities as the database returns them

  datatype ItemType = Hour | Day | Deposit | Service | Product | Section

  /** The name the database stores for an item type. */
  function ItemTypeName(t: ItemType): string {
    match t
    case Hour => "HOUR"
    case Day => "DAY"
    case Deposit => "DEPOSIT"
    case Service => "SERVICE"
    case Product => "PRODUCT"
    case Section => "SECTION"
  }

  datatype PaymentMethodType = BankTransfer | PayPal | Cash | Check | Other

  /** The name the database stores for a payment method type. */
  function PaymentTypeName(t: PaymentMethodType): string {
    match t
    case BankTransfer => "BANK_TRANSFER"
    case PayPal => "PAYPAL"
    case Cash => "CASH"
    case Check => "CHECK"
    case Other => "OTHER"
  }

  /** The document labels the template reads. */
  datatype Labels = Labels(quote: string, description: string, vatRate: string)

  /**
   * A company's PDF configuration. Label fields hold `""` where the
   * database holds `null`: both are falsy to the `||` that reads them.
   */
  datatype PdfConfig = PdfConfig(
    fontFamily: string,
    padding: int,
    primaryColor: string,
    secondaryColor: string,
    includeLogo: bool,
    logoB64: Option<string>,
    paymentMethodBankTransfer: string,
    paymentMethodPayPal: string,
    paymentMethodCash: string,
    paymentMethodCheck: string,
    paymentMethodOther: string,
    hour: string,
    day: string,
    deposit: string,
    service: string,
    product: string,
    labels: Labels)

  /** The company's quote settings; `""` is an absent setting. */
  datatype QuoteSettings = QuoteSettings(primaryColor: string, secondaryColor: string, tableTextColor: string)

  datatype Company = Company(
    name: string,
    description: string,
    address: string,
    postalCode: string,
    city: string,
    country: string,
    phone: string,
    email: string,
    legalId: string,
    vat: string,
    exemptVat: bool,
    quoteSettings: QuoteSettings,
    pdfConfig: Option<PdfConfig>)

  datatype Client = Client(
    name: string,
    contactFirstname: string,
    contactLastname: string,
    address: string,
    postalCode: string,
    city: string,
    country: string)

  /** A line of a quote; `unitPrice` in cents, `vatRate` in hundredths of a percent. */
  datatype Item = Item(
    description: string,
    quantity: int,
    unitPrice: int,
    vatRate: int,
    itemType: ItemType,
    order: int)

  datatype PaymentMethod = PaymentMethod(id: string, name: string, methodType: PaymentMethodType, details: string)

  /**
   * The stored `complementaryOptions` string once `JSON.parse` has read it:
   * text that does not parse to an object, or the three flags (a missing
   * flag is `false`, as `undefined` is falsy).
   */
  datatype OptionsBlob = Malformed | Parsed(signature: bool, acceptance: bool, title: bool)

  /** A quote with its relations; totals in cents; `complementaryOptions` is `None` when empty or `null`. */
  datatype Quote = Quote(
    number: nat,
    rawNumber: Option<string>,
    createdAt: nat,
    validUntil: Option<nat>,
    currency: string,
    items: seq<Item>,
    totalHT: int,
    totalVAT: int,
    totalTTC: int,
    vatExemptionReason: Option<string>,
    vatExemptionText: Option<string>,
    footerText: Option<string>,
    title: Option<string>,
    complementaryOptions: Option<OptionsBlob>,
    paymentMethod: Option<string>,
    paymentDetails: Option<string>,
    paymentMethodId: Option<string>,
    notes: Option<string>,
    client: Client,
    company: Option<Company>)

  /** Library code the generator calls and this model does not look into. */
  datatype Env = Env(
    markdown: string -> string,                  // `marked.parse(text, { breaks: true })`
    formatDate: (Company, Option<nat>) -> string, // `formatDate(company, date)`
    invertColor: string -> string)                // `getInvertColor(color)`

  datatype PdfError =
    | QuoteOrConfigNotFound  // 'Quote or associated PDF config not found'
    | MalformedOptions       // `JSON.parse` throwing on `complementaryOptions`

  // ---------------------------------------------------------------------
  // The render model

  datatype RenderItem = RenderItem(
    description: string,
    quantity: int,
    unitPrice: string,
    vatRate: int,
    typeLabel: string,
    isSection: bool)

  datatype RenderModel = RenderModel(
    number: string,
    date: string,
    validUntil: string,
    company: Company,
    client: Client,
    currency: string,
    items: seq<RenderItem>,
    totalHT: string,
    totalVAT: string,
    totalTTC: string,
    vatExemptText: Option<string>,
    footerText: Option<string>,
    title: Option<string>,
    showVAT: bool,
    colSpan: nat,
    showSignature: bool,
    showAcceptance: bool,
    showSignatureSection: bool,
    paymentMethod: Option<string>,
    paymentDetails: Option<string>,
    fontFamily: string,
    padding: int,
    primaryColor: string,
    secondaryColor: string,
    tableTextColor: string,
    includeLogo: bool,
    logoB64: string,
    noteExists: bool,
    notes: string,
    labels: Labels)

  // ---------------------------------------------------------------------
  // Money: `amount.toFixed(2).replace('.', ',')`

  function Abs(x: int): nat {
    if x < 0 then -x else x
  }

  /** `toFixed(2)` of an amount of `cents` hundredths. */
  function ToFixed2(cents: int): string {
    (if cents < 0 then "-" else "") + NatToString(Abs(cents) / 100) + "." + TwoDigits(Abs(cents) % 100)
  }

  /** `s.replace(from, to)` with a one-character string pattern: the first occurrence only. */
  function ReplaceFirst(s: string, from: char, to: char): (r: string)
    ensures |r| == |s|
    ensures from !in s ==> r == s
  {
    if s == [] then []
    else if s[0] == from then [to] + s[1..]
    else [s[0]] + ReplaceFirst(s[1..], from, to)
  }

  lemma {:induction false} ReplaceFirstAfter(a: string, from: char, to: char, b: string)
    requires from !in a
    ensures ReplaceFirst(a + [from] + b, from, to) == a + [to] + b
  {
    if a == [] {
      assert a + [from] + b == [from] + b;
      assert ([from] + b)[1..] == b;
    } else {
      assert (a + [from] + b)[1..] == a[1..] + [from] + b;
      ReplaceFirstAfter(a[1..], from, to, b);
    }
  }

  /** Reads back an unsigned amount written `digits,dd`. */
  function ParseUnsigned(s: string): Option<nat> {
    if |s| >= 4 && s[|s| - 3] == ',' && AllDigits(s[..|s| - 3]) && AllDigits(s[|s| - 2..])
    then Some(DigitsValue(s[..|s| - 3]) * 100 + DigitsValue(s[|s| - 2..]))
    else None
  }

  /** Reads back an amount written `[-]digits,dd`, in cents. */
  function ParseMoney(s: string): Option<int> {
    if |s| >= 1 && s[0] == '-' then
      match ParseUnsigned(s[1..])
      case Some(v) => if v > 0 then Some(0 - v) else None
      case None => None
    else
      match ParseUnsigned(s)
      case Some(v) => Some(v)
      case None => None
  }

  /**
   * A monetary field of the render model: the integer part, a comma and
   * exactly two decimals, no dot; reading it back gives the amount.
   */
  function FormatMoney(cents: int): (s: string)
    ensures '.' !in s && Count(',', s) == 1
    ensures |s| >= 4 && s[|s| - 3] == ',' && AllDigits(s[|s| - 2..])
    ensures (s[0] == '-') == (cents < 0)
    ensures WholePart(s) == NatToString(Abs(cents) / 100)
    ensures ParseMoney(s) == Some(cents)
  {
    FormatMoneyFacts(cents);
    MoneySignAndWhole(cents);
    ReplaceFirst(ToFixed2(cents), '.', ',')
  }

  /**
   * The digits between an optional leading minus sign and the comma of a
   * money text `[-]digits,dd`.
   */
  function WholePart(s: string): string
    requires |s| >= 3
  {
    if s[0] == '-' && |s| >= 4 then s[1..|s| - 3] else s[..|s| - 3]
  }

  lemma FormatMoneyFacts(cents: int)
    ensures var s := ReplaceFirst(ToFixed2(cents), '.', ',');
      && '.' !in s && Count(',', s) == 1
      && |s| >= 4 && s[|s| - 3] == ',' && AllDigits(s[|s| - 2..])
      && ParseMoney(s) == Some(cents)
  {
    var sign := if cents < 0 then "-" else "";
    var whole := NatToString(Abs(cents) / 100);
    var frac := TwoDigits(Abs(cents) % 100);
    MoneyText(cents);
    MoneyParses(sign, whole, frac, cents);
    MoneyPunctuation(sign, whole, frac);
    var s := sign + whole + [','] + frac;
    assert s[|s| - 3] == ',' && s[|s| - 2..] == frac;
  }

  /** Digits around one comma, after an optional minus: no point and exactly one comma. */
  lemma MoneyPunctuation(sign: string, whole: string, frac: string)
    requires sign == "" || sign == "-"
    requires AllDigits(whole) && AllDigits(frac)
    ensures var s := sign + whole + [','] + frac;
      '.' !in s && Count(',', s) == 1
  {
    var s := sign + whole + [','] + frac;
    assert s == (sign + whole) + ([','] + frac);
    CountAppend(',', sign + whole, [','] + frac);
    CountAppend(',', [','], frac);
  }

  /** The sign is there exactly for a negative amount, and the integer part is written as `toString` would. */
  lemma MoneySignAndWhole(cents: int)
    ensures var s := ReplaceFirst(ToFixed2(cents), '.', ',');
      && |s| >= 4
      && (s[0] == '-') == (cents < 0)
      && WholePart(s) == NatToString(Abs(cents) / 100)
  {
    var sign := if cents < 0 then "-" else "";
    var whole := NatToString(Abs(cents) / 100);
    var frac := TwoDigits(Abs(cents) % 100);
    MoneyText(cents);
    var s := sign + whole + [','] + frac;
    assert IsDigit(whole[0]);
    if cents < 0 {
      assert s[0] == '-' && s[1..|s| - 3] == whole;
    } else {
      assert s[0] == whole[0] && s[..|s| - 3] == whole;
    }
  }

  /** `toFixed(2)` followed by the replacement is the sign, the integer part, a comma and two digits. */
  lemma MoneyText(cents: int)
    ensures ReplaceFirst(ToFixed2(cents), '.', ',')
         == (if cents < 0 then "-" else "") + NatToString(Abs(cents) / 100) + [','] + TwoDigits(Abs(cents) % 100)
  {
    var sign := if cents < 0 then "-" else "";
    var whole := NatToString(Abs(cents) / 100);
    var frac := TwoDigits(Abs(cents) % 100);
    assert ToFixed2(cents) == (sign + whole) + ['.'] + frac;
    ReplaceFirstAfter(sign + whole, '.', ',', frac);
  }

  lemma MoneyParses(sign: string, whole: string, frac: string, cents: int)
    requires sign == if cents < 0 then "-" else ""
    requires whole == NatToString(Abs(cents) / 100)
    requires frac == TwoDigits(Abs(cents) % 100)
    ensures ParseMoney(sign + whole + [','] + frac) == Some(cents)
  {
    var u := whole + [','] + frac;
    UnsignedMoneyParses(whole, frac, Abs(cents));
    var s := sign + whole + [','] + frac;
    if cents < 0 {
      assert s == "-" + u;
      assert s[1..] == u;
    } else {
      assert s == u && IsDigit(s[0]);
    }
  }

  lemma UnsignedMoneyParses(whole: string, frac: string, v: nat)
    requires whole == NatToString(v / 100)
    requires frac == TwoDigits(v % 100)
    ensures ParseUnsigned(whole + [','] + frac) == Some(v)
  {
    var u := whole + [','] + frac;
    assert |u| >= 4 && u[|u| - 3] == ',';
    assert u[..|u| - 3] == whole && u[|u| - 2..] == frac;
    NatToStringRoundTrip(v / 100);
    assert DigitsValue(whole) * 100 + DigitsValue(frac) == v;
  }

  /** A whole amount is shown with `,00`: 200 as `200,00`. */
  lemma FormatWholeAmount(units: nat)
    ensures FormatMoney(units * 100) == NatToString(units) + ",00"
  {
    assert (units * 100) / 100 == units && (units * 100) % 100 == 0;
    assert TwoDigits(0) == "00";
    MoneyText(units * 100);
  }

  // ---------------------------------------------------------------------
  // Projection rules

  /** `quote.rawNumber || quote.number.toString()`. */
  function DisplayNumber(rawNumber: Option<string>, number: nat): (r: string)
    ensures r != ""
    ensures Truthy(rawNumber) ==> r == rawNumber.value
    ensures !Truthy(rawNumber) ==> AllDigits(r) && DigitsValue(r) == number
    ensures !Truthy(rawNumber) && |r| > 1 ==> r[0] != '0'
  {
    if Truthy(rawNumber) then rawNumber.value
    else
      NatToStringRoundTrip(number);
      NatToString(number)
  }

  /** The client after line 36-38: a blank name becomes the contact's first and last name. */
  function DisplayClient(c: Client): (r: Client)
    ensures r.(name := c.name) == c
    ensures c.name == "" ==> r.name == c.contactFirstname + " " + c.contactLastname
    ensures c.name != "" ==> r == c
  {
    if |c.name| == 0 then c.(name := c.contactFirstname + " " + c.contactLastname) else c
  }

  /** The configured label of a payment method type. */
  function PaymentLabel(config: PdfConfig, t: PaymentMethodType): string {
    match t
    case BankTransfer => config.paymentMethodBankTransfer
    case PayPal => config.paymentMethodPayPal
    case Cash => config.paymentMethodCash
    case Check => config.paymentMethodCheck
    case Other => config.paymentMethodOther
  }

  /** `paymentMethodLabels[pm.type] || pm.type`: never empty. */
  function PaymentTypeLabel(config: PdfConfig, t: PaymentMethodType): (r: string)
    ensures r != ""
    ensures PaymentLabel(config, t) != "" ==> r == PaymentLabel(config, t)
    ensures PaymentLabel(config, t) == "" ==> r == PaymentTypeName(t)
  {
    if PaymentLabel(config, t) != "" then PaymentLabel(config, t) else PaymentTypeName(t)
  }

  /** The saved payment method the quote refers to, when the reference is set and resolves. */
  function ReferencedMethod(q: Quote, paymentMethods: map<string, PaymentMethod>): Option<PaymentMethod> {
    if Truthy(q.paymentMethodId) && q.paymentMethodId.value in paymentMethods
    then Some(paymentMethods[q.paymentMethodId.value])
    else None
  }

  /**
   * The payment line and details: from the referenced payment method when
   * there is one (its configured label, its details unless empty), else the
   * quote's own `paymentMethod` and `paymentDetails`.
   */
  function ResolvePayment(q: Quote, pm: Option<PaymentMethod>, config: PdfConfig): (r: (Option<string>, Option<string>))
    ensures pm.None? ==> r == (q.paymentMethod, q.paymentDetails)
    ensures pm.Some? ==> r.0 == Some(PaymentTypeLabel(config, pm.value.methodType))
    ensures pm.Some? && pm.value.details != "" ==> r.1 == Some(pm.value.details)
    ensures pm.Some? && pm.value.details == "" ==> r.1 == q.paymentDetails
  {
    match pm
    case None => (q.paymentMethod, q.paymentDetails)
    case Some(m) =>
      (Some(PaymentTypeLabel(config, m.methodType)),
       if m.details != "" then Some(m.details) else q.paymentDetails)
  }

  /** The configured label of an item type; sections have none. */
  function ItemLabel(config: PdfConfig, t: ItemType): string {
    match t
    case Hour => config.hour
    case Day => config.day
    case Deposit => config.deposit
    case Service => config.service
    case Product => config.product
    case Section => ""
  }

  /** `itemTypeLabels[i.type] || i.type`: the configured label, else the raw type name. */
  function ItemTypeLabel(config: PdfConfig, t: ItemType): (r: string)
    ensures r != ""
    ensures t == Section ==> r == "SECTION"
    ensures ItemLabel(config, t) != "" ==> r == ItemLabel(config, t)
    ensures ItemLabel(config, t) == "" ==> r == ItemTypeName(t)
  {
    if ItemLabel(config, t) != "" then ItemLabel(config, t) else ItemTypeName(t)
  }

  function ProjectItem(config: PdfConfig, markdown: string -> string, i: Item): (r: RenderItem)
    ensures r.isSection <==> i.itemType == Section
    ensures r.isSection ==> r.typeLabel == "SECTION"
    ensures ParseMoney(r.unitPrice) == Some(i.unitPrice)
    ensures r.description == markdown(i.description) && r.vatRate == i.vatRate && r.quantity == i.quantity
  {
    RenderItem(
      markdown(i.description),
      i.quantity,
      FormatMoney(i.unitPrice),
      i.vatRate,
      ItemTypeLabel(config, i.itemType),
      i.itemType == Section)
  }

  /** `quote.items.map(...)`: one projected item per item, in the stored order. */
  function ProjectItems(config: PdfConfig, markdown: string -> string, items: seq<Item>): (r: seq<RenderItem>)
    ensures |r| == |items|
    ensures forall k :: 0 <= k < |items| ==> r[k] == ProjectItem(config, markdown, items[k])
  {
    var r := seq(|items|, k requires 0 <= k < |items| => ProjectItem(config, markdown, items[k]));
    assert forall k :: 0 <= k < |items| ==> r[k] == ProjectItem(config, markdown, items[k]);
    r
  }

  const FrenchExemptionText: string := "TVA non applicable, art. 293 B du CGI"

  /** `(company.country || '').toUpperCase() === 'FRANCE'`. */
  predicate InFrance(c: Company) {
    ToUpper(c.country) == "FRANCE"
  }

  /**
   * The VAT mention: the quote's own text when it is not empty, else the
   * French exemption sentence for a VAT-exempt company in France, else none.
   */
  function VatExemptText(q: Quote, c: Company): (r: Option<string>)
    ensures Truthy(q.vatExemptionText) ==> r == q.vatExemptionText
    ensures !Truthy(q.vatExemptionText) && c.exemptVat && InFrance(c) ==> r == Some(FrenchExemptionText)
    ensures !Truthy(q.vatExemptionText) && !(c.exemptVat && InFrance(c)) ==> r.None?
  {
    if Truthy(q.vatExemptionText) then q.vatExemptionText
    else if c.exemptVat && InFrance(c) then Some(FrenchExemptionText)
    else None
  }

  /** `!quote.vatExemptionReason || quote.vatExemptionReason === 'none'`. */
  predicate ShowVat(reason: Option<string>) {
    !Truthy(reason) || reason == Some("none")
  }

  /** `1 + (showVAT ? 1 : 0) + 1`: description, the optional VAT rate, the amount. */
  function ColSpan(reason: Option<string>): (n: nat)
    ensures n == if ShowVat(reason) then 3 else 2
  {
    1 + (if !Truthy(reason) || reason == Some("none") then 1 else 0) + 1
  }

  /** `quote.complementaryOptions ? JSON.parse(...).signature : true`. */
  function ShowSignature(opts: Option<OptionsBlob>): bool
    requires opts != Some(Malformed)
  {
    if opts.Some? then opts.value.signature else true
  }

  function ShowAcceptance(opts: Option<OptionsBlob>): bool
    requires opts != Some(Malformed)
  {
    if opts.Some? then opts.value.acceptance else true
  }

  /** `quote.complementaryOptions ? (JSON.parse(...).title ? quote.title : undefined) : undefined`. */
  function DisplayTitle(q: Quote): Option<string>
    requires q.complementaryOptions != Some(Malformed)
  {
    if q.complementaryOptions.Some? && q.complementaryOptions.value.title then q.title else None
  }

  // ---------------------------------------------------------------------
  // Notes: `(notes || '').replace(/\n/g, '<br>')`

  const LineBreak: string := "<br>"

  function BreakLines(s: string): (r: string)
    ensures '\n' !in r
  {
    if s == [] then []
    else (if s[0] == '\n' then LineBreak else [s[0]]) + BreakLines(s[1..])
  }

  /** Each line feed grows the text by three characters, the rest keep their length. */
  lemma {:induction false} BreakLinesLength(s: string)
    ensures |BreakLines(s)| == |s| + 3 * Count('\n', s)
  {
    if s != [] {
      BreakLinesLength(s[1..]);
    }
  }

  /** Notes without a line feed are shown as they are. */
  lemma {:induction false} BreakLinesPlain(s: string)
    requires '\n' !in s
    ensures BreakLines(s) == s
  {
    if s != [] {
      assert '\n' !in s[1..];
      BreakLinesPlain(s[1..]);
      assert [s[0]] + s[1..] == s;
    }
  }

  /**
   * The replacement works character by character: a line feed becomes
   * `<br>`, any other character stays, and the pieces of a text are
   * replaced independently of each other.
   */
  lemma {:induction false} BreakLinesAppend(a: string, b: string)
    ensures BreakLines(a + b) == BreakLines(a) + BreakLines(b)
    decreases |a|
  {
    if a == [] {
      assert a + b == b;
    } else {
      var t := a[1..];
      var h := if a[0] == '\n' then LineBreak else [a[0]];
      calc {
        BreakLines(a + b);
        == { assert a + b == [a[0]] + (t + b); BreakLinesCons(a[0], t + b); }
        h + BreakLines(t + b);
        == { BreakLinesAppend(t, b); }
        h + (BreakLines(t) + BreakLines(b));
        (h + BreakLines(t)) + BreakLines(b);
        == { assert a == [a[0]] + t; BreakLinesCons(a[0], t); }
        BreakLines(a) + BreakLines(b);
      }
    }
  }

  /** The first character is replaced on its own, ahead of the rest. */
  lemma BreakLinesCons(c: char, t: string)
    ensures BreakLines([c] + t) == (if c == '\n' then LineBreak else [c]) + BreakLines(t)
  {
    assert ([c] + t)[1..] == t;
  }

  lemma BreakLinesChar(c: char)
    ensures BreakLines([c]) == if c == '\n' then LineBreak else [c]
  {
    BreakLinesCons(c, []);
    assert [c] + [] == [c];
  }

  /** Turns every `<br>` back into a line feed. */
  function RestoreLines(s: string): string {
    if s == [] then []
    else if |s| >= 4 && s[..4] == LineBreak then "\n" + RestoreLines(s[4..])
    else [s[0]] + RestoreLines(s[1..])
  }

  lemma RestoreBreak(rest: string)
    ensures RestoreLines(LineBreak + rest) == "\n" + RestoreLines(rest)
  {
    var t := LineBreak + rest;
    assert t[..4] == LineBreak && t[4..] == rest;
  }

  lemma RestorePlain(c: char, rest: string)
    requires c != '<'
    ensures RestoreLines([c] + rest) == [c] + RestoreLines(rest)
  {
    var t := [c] + rest;
    assert t[1..] == rest;
    if |t| >= 4 {
      assert t[..4][0] == c;
    }
  }

  /** Notes that contain no `<` come back unchanged from their HTML form. */
  lemma {:induction false} BreakLinesRoundTrip(s: string)
    requires '<' !in s
    ensures RestoreLines(BreakLines(s)) == s
  {
    if s != [] {
      assert '<' !in s[1..];
      BreakLinesRoundTrip(s[1..]);
      var rest := BreakLines(s[1..]);
      if s[0] == '\n' {
        RestoreBreak(rest);
      } else {
        RestorePlain(s[0], rest);
      }
      assert [s[0]] + s[1..] == s;
    }
  }

  function DisplayNotes(notes: Option<string>): (r: string)
    ensures '\n' !in r
    ensures !Truthy(notes) ==> r == ""
    ensures Truthy(notes) ==> r == BreakLines(notes.value)
  {
    BreakLines(notes.GetOr(""))
  }

  // ---------------------------------------------------------------------
  // The whole projection

  /**
   * The object literal handed to the template, once the client's name and
   * the payment variables are settled.
   */
  function BuildModel(q: Quote, company: Company, config: PdfConfig, client: Client,
                      paymentMethod: Option<string>, paymentDetails: Option<string>, env: Env): RenderModel
    requires q.complementaryOptions != Some(Malformed)
  {
    var settings := company.quoteSettings;
    var secondary := if settings.secondaryColor != "" then settings.secondaryColor else config.secondaryColor;
    RenderModel(
      number := DisplayNumber(q.rawNumber, q.number),
      date := env.formatDate(company, Some(q.createdAt)),
      validUntil := env.formatDate(company, q.validUntil),
      company := company,
      client := client,
      currency := q.currency,
      items := ProjectItems(config, env.markdown, q.items),
      totalHT := FormatMoney(q.totalHT),
      totalVAT := FormatMoney(q.totalVAT),
      totalTTC := FormatMoney(q.totalTTC),
      vatExemptText := VatExemptText(q, company),
      footerText := q.footerText,
      title := DisplayTitle(q),
      showVAT := ShowVat(q.vatExemptionReason),
      colSpan := ColSpan(q.vatExemptionReason),
      showSignature := ShowSignature(q.complementaryOptions),
      showAcceptance := ShowAcceptance(q.complementaryOptions),
      showSignatureSection := ShowSignature(q.complementaryOptions) || ShowAcceptance(q.complementaryOptions),
      paymentMethod := paymentMethod,
      paymentDetails := paymentDetails,
      fontFamily := config.fontFamily,
      padding := config.padding,
      primaryColor := if settings.primaryColor != "" then settings.primaryColor else config.primaryColor,
      secondaryColor := secondary,
      tableTextColor := if settings.tableTextColor != "" then settings.tableTextColor else env.invertColor(secondary),
      includeLogo := config.includeLogo,
      logoB64 := config.logoB64.GetOr(""),
      noteExists := Truthy(q.notes),
      notes := DisplayNotes(q.notes),
      labels := config.labels)
  }

  /** Whether the quote, its company and the company's PDF configuration were all found. */
  predicate Loaded(quotes: map<string, Quote>, quoteId: string) {
    quoteId in quotes && quotes[quoteId].company.Some? && quotes[quoteId].company.value.pdfConfig.Some?
  }

  /**
   * What `generateQuotePdf(quoteId)` hands to the template, or the error it
   * throws first.
   */
  function ProjectQuote(quotes: map<string, Quote>, paymentMethods: map<string, PaymentMethod>, quoteId: string, env: Env)
    : Result<RenderModel, PdfError>
  {
    if !Loaded(quotes, quoteId) then Err(QuoteOrConfigNotFound)
    else if quotes[quoteId].complementaryOptions == Some(Malformed) then Err(MalformedOptions)
    else
      var q := quotes[quoteId];
      var company := q.company.value;
      var config := company.pdfConfig.value;
      var payment := ResolvePayment(q, ReferencedMethod(q, paymentMethods), config);
      Ok(BuildModel(q, company, config, DisplayClient(q.client), payment.0, payment.1, env))
  }

  /**
   * `generateQuotePdf` up to the template call: the lookups, the in-place
   * fix of the client's name and the reassigned payment variables.
   */
  method GenerateQuotePdf(quotes: map<string, Quote>, paymentMethods: map<string, PaymentMethod>, quoteId: string, env: Env)
    returns (r: Result<RenderModel, PdfError>)
    ensures r == ProjectQuote(quotes, paymentMethods, quoteId, env)
  {
    if quoteId !in quotes || quotes[quoteId].company.None? || quotes[quoteId].company.value.pdfConfig.None? {
      return Err(QuoteOrConfigNotFound);
    }
    var quote := quotes[quoteId];
    var company := quote.company.value;
    var config := company.pdfConfig.value;

    var client := quote.client;
    if |client.name| == 0 {
      client := client.(name := client.contactFirstname + " " + client.contactLastname);
    }

    var paymentMethodType := quote.paymentMethod;
    var paymentDetails := quote.paymentDetails;
    if Truthy(quote.paymentMethodId) {
      var found := quote.paymentMethodId.value in paymentMethods;
      if found {
        var pm := paymentMethods[quote.paymentMethodId.value];
        var configured := PaymentLabel(config, pm.methodType);
        paymentMethodType := Some(if configured != "" then configured else PaymentTypeName(pm.methodType));
        paymentDetails := if pm.details != "" then Some(pm.details) else paymentDetails;
      }
    }

    if quote.complementaryOptions == Some(Malformed) {
      return Err(MalformedOptions);
    }
    assert client == DisplayClient(quote.client);
    assert (paymentMethodType, paymentDetails) == ResolvePayment(quote, ReferencedMethod(quote, paymentMethods), config);
    r := Ok(BuildModel(quote, company, config, client, paymentMethodType, paymentDetails, env));
  }

  // ---------------------------------------------------------------------
  // What the projection guarantees

  /** The layout fields agree: three columns with the VAT rate, two without. */
  predicate Consistent(m: RenderModel) {
    m.colSpan == if m.showVAT then 3 else 2
  }

  /** Generation fails exactly when a lookup comes back empty or the options do not parse, and says which. */
  lemma ProjectQuoteErrors(quotes: map<string, Quote>, paymentMethods: map<string, PaymentMethod>, quoteId: string, env: Env)
    ensures ProjectQuote(quotes, paymentMethods, quoteId, env) == Err(QuoteOrConfigNotFound) <==> !Loaded(quotes, quoteId)
    ensures ProjectQuote(quotes, paymentMethods, quoteId, env) == Err(MalformedOptions)
        <==> Loaded(quotes, quoteId) && quotes[quoteId].complementaryOptions == Some(Malformed)
    ensures ProjectQuote(quotes, paymentMethods, quoteId, env).Ok?
        <==> Loaded(quotes, quoteId) && quotes[quoteId].complementaryOptions != Some(Malformed)
  {
  }

  /**
   * The render model of a loaded quote: the number, client name, payment,
   * items, totals, VAT layout, signature flags and notes, each as the
   * generator derives it from the stored quote.
   */
  lemma ProjectedModel(quotes: map<string, Quote>, paymentMethods: map<string, PaymentMethod>, quoteId: string, env: Env)
    requires Loaded(quotes, quoteId) && quotes[quoteId].complementaryOptions != Some(Malformed)
    ensures var m := ProjectQuote(quotes, paymentMethods, quoteId, env).value;
      var q := quotes[quoteId];
      var config := q.company.value.pdfConfig.value;
      && Consistent(m)
      && (Truthy(q.rawNumber) ==> m.number == q.rawNumber.value)
      && (!Truthy(q.rawNumber) ==> AllDigits(m.number) && DigitsValue(m.number) == q.number)
      && (q.client.name == "" ==> m.client.name == q.client.contactFirstname + " " + q.client.contactLastname)
      && (q.client.name != "" ==> m.client == q.client)
      && (ReferencedMethod(q, paymentMethods).None? ==> m.paymentMethod == q.paymentMethod && m.paymentDetails == q.paymentDetails)
      && (ReferencedMethod(q, paymentMethods).Some? ==>
            var pm := ReferencedMethod(q, paymentMethods).value;
            && m.paymentMethod == Some(PaymentTypeLabel(config, pm.methodType))
            && m.paymentDetails == (if pm.details != "" then Some(pm.details) else q.paymentDetails))
      && m.vatExemptText == VatExemptText(q, q.company.value)
      && |m.items| == |q.items|
      && (forall k :: 0 <= k < |q.items| ==>
            (m.items[k].isSection <==> q.items[k].itemType == Section)
            && m.items[k].typeLabel == ItemTypeLabel(config, q.items[k].itemType)
            && ParseMoney(m.items[k].unitPrice) == Some(q.items[k].unitPrice))
      && ParseMoney(m.totalHT) == Some(q.totalHT)
      && ParseMoney(m.totalVAT) == Some(q.totalVAT)
      && ParseMoney(m.totalTTC) == Some(q.totalTTC)
      && (m.showVAT <==> !Truthy(q.vatExemptionReason) || q.vatExemptionReason == Some("none"))
      && m.showSignatureSection == (m.showSignature || m.showAcceptance)
      && (q.complementaryOptions.None? ==> m.showSignature && m.showAcceptance && m.title.None?)
      && (q.complementaryOptions.Some? ==>
            var opts := q.complementaryOptions.value;
            && m.showSignature == opts.signature
            && m.showAcceptance == opts.acceptance
            && m.title == (if opts.title then q.title else None))
      && (m.noteExists <==> Truthy(q.notes))
      && '\n' !in m.notes
      && m.notes == DisplayNotes(q.notes)
  {
  }
}
