/**
 * The four notification e-mails as HTML strings. Each is a fixed skeleton with
 * the caller's values inserted as they are: nothing is HTML-escaped.
 * The skeleton is written here as a few building blocks (head, alert box,
 * details rows, button and footer) whose concatenation is the template text.
 */
module Templates {
  import opened Common
  import opened Text

  datatype ExpirationData = ExpirationData(
    vendorName: string, coverageType: string, policyNumber: string,
    expirationDate: string, daysUntilExpiration: int, certificateUrl: string)

  datatype NonCompliantData = NonCompliantData(
    vendorName: string, vendorId: string, complianceGaps: seq<string>, vendorUrl: string)

  datatype PendingRequestData = PendingRequestData(
    vendorName: string, brokerEmail: string, brokerName: string,
    requestedDate: string, daysPending: int, vendorUrl: string)

  datatype ExpiredData = ExpiredData(
    vendorName: string, coverageType: string, policyNumber: string,
    expirationDate: string, daysOverdue: int, vendorUrl: string)

  // ---------------------------------------------------------------- building blocks

  /** The document head (title, the shared style sheet) and the card header with the `<h1>` heading. */
  function Opening(title: string, heading: string): string {
    "\n"
    + "    <!DOCTYPE html>\n"
    + "    <html>\n"
    + "    <head>\n"
    + "      <meta charset=\"utf-8\">\n"
    + "      <meta name=\"viewport\" content=\"width=device-width, initial-scale=1.0\">\n"
    + "      <title>"
    + title
    + "</title>\n      "
    + BaseStyles
    + "\n"
    + "    </head>\n"
    + "    <body>\n"
    + "      <div class=\"container\">\n"
    + "        <div class=\"card\">\n"
    + "          <div class=\"header\">\n"
    + "            <div class=\"logo\">Columbia University</div>\n"
    + "            <div style=\"color: #A8AAAE; font-size: 14px; margin-top: 8px;\">Vendor Compliance Portal</div>\n"
    + "          </div>\n"
    + "\n"
    + "          <h1>"
    + heading
    + "</h1>\n"
    + "\n"
  }

  /** The opening tag of the alert box; `kind` picks the CSS class `alert-<kind>`. */
  function AlertOpen(kind: string): string {
    "<div class=\"alert alert-" + kind + "\">"
  }

  /** The alert box under the heading. */
  function Alert(kind: string, lead: string, text: string): string {
    "          "
    + AlertOpen(kind)
    + "\n            <strong>"
    + lead
    + "</strong> "
    + text
    + "\n"
    + "          </div>\n"
    + "\n"
  }

  /** The introductory paragraph. */
  function Intro(text: string): string {
    "          <p>"
    + text
    + "</p>\n"
    + "\n"
  }

  /** The details box holding the caption/value rows. */
  function Details(rows: string): string {
    "          <div class=\"details\">"
    + rows
    + "\n"
    + "          </div>\n"
    + "\n"
  }

  /** A value cell: the value is inserted as it is, with no HTML escaping. */
  function ValueSpan(value: string): string {
    "<span class=\"value\">" + value + "</span>"
  }

  /** One caption/value row of the details box. */
  function Row(caption: string, value: string): string {
    "\n"
    + "            <div class=\"details-row\">\n"
    + "              <span class=\"label\">"
    + caption
    + "</span>\n              "
    + ValueSpan(value)
    + "\n            </div>"
  }

  /** The coloured day-count cell. */
  function DaysSpan(color: string, days: string): string {
    "<span class=\"value\" style=\"color: " + color + "; font-weight: 600;\">" + days + " days</span>"
  }

  /** The coloured day-count row of the details box. */
  function DaysRow(caption: string, color: string, days: string): string {
    "\n"
    + "            <div class=\"details-row\">\n"
    + "              <span class=\"label\">"
    + caption
    + "</span>\n              "
    + DaysSpan(color, days)
    + "\n            </div>"
  }

  /** The "Compliance Gaps" heading and the list holding the rendered gap items. */
  function GapList(items: string): string {
    GapListStart
    + items
    + GapListEnd
  }

  /** A `mailto:` link whose target and text are both the address. */
  function MailtoLink(email: string): string {
    "<a href=\"mailto:" + email + "\">" + email + "</a>"
  }

  /** The call-to-action link. */
  function ButtonLink(url: string, caption: string): string {
    "<a href=\"" + url + "\" class=\"button\">" + caption + "</a>"
  }

  /** The centred call-to-action link and the footer with a template-specific note. */
  function Closing(url: string, caption: string, note: string): string {
    "          <center>\n            "
    + ButtonLink(url, caption)
    + FooterStart
    + note
    + FooterEnd
  }

  const GapListStart: string := "          <h2>Compliance Gaps:</h2>\n          <ul>\n            "
  const GapListEnd: string := "\n          </ul>\n\n"

  /** The end of the call-to-action block and the start of the footer, up to its note. */
  const FooterStart: string :=
    "\n          </center>\n\n          <div class=\"footer\">\n"
    + "            <p>This is an automated notification from the Columbia University Vendor Compliance Portal.</p>\n"
    + "            <p>"

  /** The rest of the footer and the end of the document. */
  const FooterEnd: string := "</p>\n          </div>\n        </div>\n      </div>\n    </body>\n    </html>\n  "

  /** The fixed list of recommended actions in the expiring notice. */
  const ExpiringActions: string :=
    "          <p><strong>Recommended Actions:</strong></p>\n"
    + "          <ul>\n"
    + "            <li>Contact the vendor to request certificate renewal</li>\n"
    + "            <li>Verify updated insurance requirements</li>\n"
    + "            <li>Upload new certificate when received</li>\n"
    + "          </ul>\n"
    + "\n"

  /** The fixed list of next steps in the non-compliance notice. */
  const NonCompliantSteps: string :=
    "          <p><strong>Next Steps:</strong></p>\n"
    + "          <ul>\n"
    + "            <li>Contact the vendor's broker to request corrected certificate</li>\n"
    + "            <li>Review specific requirements with the vendor</li>\n"
    + "            <li>Suspend work authorization until compliance is achieved (if applicable)</li>\n"
    + "          </ul>\n"
    + "\n"

  /** The fixed list of immediate actions in the expired notice. */
  const ExpiredActions: string :=
    "          <p><strong>Immediate Actions Required:</strong></p>\n"
    + "          <ul>\n"
    + "            <li><strong>Suspend vendor work authorization immediately</strong></li>\n"
    + "            <li>Contact vendor to request updated certificate</li>\n"
    + "            <li>Verify vendor has active insurance coverage</li>\n"
    + "            <li>Do not authorize new work until certificate is renewed</li>\n"
    + "            <li>Review any active contracts for insurance requirements</li>\n"
    + "          </ul>\n"
    + "\n"

  /** The reminder's action list up to the broker's mailto link. */
  const PendingActionsStart: string :=
    "          <p><strong>Recommended Actions:</strong></p>\n"
    + "          <ul>\n"
    + "            <li>Contact the broker directly at "

  /** The reminder's action list after the broker's mailto link. */
  const PendingActionsEnd: string :=
    "</li>\n"
    + "            <li>Verify the broker received the original request</li>\n"
    + "            <li>Confirm vendor has necessary insurance in place</li>\n"
    + "            <li>Consider alternate brokers if no response after 14 days</li>\n"
    + "          </ul>\n"
    + "\n"

  /** The shared `<style>` block every notice embeds in its head. */
  const BaseStyles: string := StylesBefore + LabelRule + ValueRule + StylesAfter

  /** The rules of the style sheet before the one for `.label`. */
  const StylesBefore: string :=
    "\n"
    + "  <style>\n"
    + "    body {\n"
    + "      font-family: -apple-system, BlinkMacSystemFont, 'Segoe UI', Roboto, 'Helvetica Neue', Arial, sans-serif;\n"
    + "      line-height: 1.6;\n"
    + "      color: #4B465C;\n"
    + "      background-color: #F8F7FA;\n"
    + "      margin: 0;\n"
    + "      padding: 0;\n"
    + "    }\n"
    + "    .container {\n"
    + "      max-width: 600px;\n"
    + "      margin: 0 auto;\n"
    + "      padding: 20px;\n"
    + "    }\n"
    + "    .card {\n"
    + "      background: #FFFFFF;\n"
    + "      border-radius: 12px;\n"
    + "      box-shadow: 0 2px 6px rgba(0, 0, 0, 0.1);\n"
    + "      padding: 32px;\n"
    + "      margin: 20px 0;\n"
    + "    }\n"
    + "    .header {\n"
    + "      text-align: center;\n"
    + "      padding: 20px 0;\n"
    + "      border-bottom: 2px solid #7367F0;\n"
    + "      margin-bottom: 24px;\n"
    + "    }\n"
    + "    .logo {\n"
    + "      font-size: 24px;\n"
    + "      font-weight: 700;\n"
    + "      color: #003087;\n"
    + "    }\n"
    + "    h1 {\n"
    + "      font-size: 24px;\n"
    + "      font-weight: 600;\n"
    + "      color: #4B465C;\n"
    + "      margin: 0 0 16px 0;\n"
    + "    }\n"
    + "    h2 {\n"
    + "      font-size: 18px;\n"
    + "      font-weight: 600;\n"
    + "      color: #4B465C;\n"
    + "      margin: 24px 0 12px 0;\n"
    + "    }\n"
    + "    p {\n"
    + "      margin: 12px 0;\n"
    + "      color: #6D6B77;\n"
    + "      font-size: 15px;\n"
    + "    }\n"
    + "    .alert {\n"
    + "      padding: 16px;\n"
    + "      border-radius: 8px;\n"
    + "      margin: 20px 0;\n"
    + "    }\n"
    + "    .alert-warning {\n"
    + "      background: #FFF6E5;\n"
    + "      border-left: 4px solid #FF9F43;\n"
    + "      color: #4B465C;\n"
    + "    }\n"
    + "    .alert-danger {\n"
    + "      background: #FFF0F0;\n"
    + "      border-left: 4px solid #EA5455;\n"
    + "      color: #4B465C;\n"
    + "    }\n"
    + "    .alert-info {\n"
    + "      background: #E8F4FD;\n"
    + "      border-left: 4px solid #7367F0;\n"
    + "      color: #4B465C;\n"
    + "    }\n"
    + "    .button {\n"
    + "      display: inline-block;\n"
    + "      padding: 12px 24px;\n"
    + "      background: #7367F0;\n"
    + "      color: #FFFFFF !important;\n"
    + "      text-decoration: none;\n"
    + "      border-radius: 8px;\n"
    + "      font-weight: 600;\n"
    + "      margin: 16px 0;\n"
    + "    }\n"
    + "    .button:hover {\n"
    + "      background: #5E51E5;\n"
    + "    }\n"
    + "    .details {\n"
    + "      background: #F8F7FA;\n"
    + "      padding: 16px;\n"
    + "      border-radius: 8px;\n"
    + "      margin: 16px 0;\n"
    + "    }\n"
    + "    .details-row {\n"
    + "      display: flex;\n"
    + "      justify-content: space-between;\n"
    + "      padding: 8px 0;\n"
    + "      border-bottom: 1px solid #E5E7EB;\n"
    + "    }\n"
    + "    .details-row:last-child {\n"
    + "      border-bottom: none;\n"
    + "    }\n"

  /** The rule for the caption of a details row. */
  const LabelRule: string :=
    "    .label {\n"
    + "      font-weight: 600;\n"
    + "      color: #4B465C;\n"
    + "    }\n"

  /** The rule for the value of a details row. */
  const ValueRule: string :=
    "    .value {\n"
    + "      color: #6D6B77;\n"
    + "      text-align: right;\n"
    + "    }\n"

  /** The rules after the one for `.value`, and the closing tag. */
  const StylesAfter: string :=
    "    .footer {\n"
    + "      text-align: center;\n"
    + "      padding: 20px;\n"
    + "      color: #A8AAAE;\n"
    + "      font-size: 13px;\n"
    + "    }\n"
    + "  </style>\n"

  /** A rule indented by four spaces contains the selector it starts with. */
  lemma RuleNamesItself(rule: string, selector: string)
    requires |rule| >= 4 + |selector| && rule[4..][..|selector|] == selector
    ensures Contains(rule, selector)
  {
    var r4, r3, r2, r1 := rule[4..], rule[3..], rule[2..], rule[1..];
    assert StartsWith(r4, selector);
    assert Contains(r4, selector);
    assert r3[1..] == r4;
    assert Contains(r3, selector);
    assert r2[1..] == r3;
    assert Contains(r2, selector);
    assert r1[1..] == r2;
    assert Contains(r1, selector);
    assert rule[1..] == r1;
  }

  /** Both classes a details row uses, `label` for its caption and `value` for its
      value, have a rule in the shared style sheet. */
  lemma RowClassesStyled()
    ensures Contains(BaseStyles, ".label {") && Contains(BaseStyles, ".value {")
  {
    RuleNamesItself(LabelRule, ".label {");
    RuleNamesItself(ValueRule, ".value {");
    ContainsExtendedLeft(StylesBefore, LabelRule, ".label {");
    ContainsExtendedRight(StylesBefore + LabelRule, ValueRule, ".label {");
    ContainsExtendedRight(StylesBefore + LabelRule + ValueRule, StylesAfter, ".label {");
    ContainsExtendedLeft(StylesBefore + LabelRule, ValueRule, ".value {");
    ContainsExtendedRight(StylesBefore + LabelRule + ValueRule, StylesAfter, ".value {");
  }

  /** One gap as a list item. */
  function ListItem(gap: string): string {
    "<li>" + gap + "</li>"
  }

  /** `gaps.map((gap) => `<li>${gap}</li>`).join('')`. */
  function ListItems(gaps: seq<string>): (r: string)
    ensures |r| == 9 * |gaps| + SumLengths(gaps)
  {
    if gaps == [] then "" else ListItem(gaps[0]) + ListItems(gaps[1..])
  }

  // ---------------------------------------------------------------- templates

  /** `danger` for 30 days or fewer, otherwise `warning`. */
  function Urgency(days: int): (u: string)
    ensures u == "danger" <==> days <= 30
    ensures u == "warning" <==> days > 30
  {
    if days <= 30 then "danger" else "warning"
  }

  /** The day-count colour follows the urgency. */
  function DaysColor(urgency: string): (c: string)
    ensures c == "#EA5455" <==> urgency == "danger"
    ensures c == "#FF9F43" <==> urgency != "danger"
  {
    if urgency == "danger" then "#EA5455" else "#FF9F43"
  }

  /** The details rows of the expiring notice. */
  function ExpiringRows(data: ExpirationData): seq<string> {
    var u := Urgency(data.daysUntilExpiration);
    [Row("Vendor:", data.vendorName),
     Row("Coverage Type:", data.coverageType),
     Row("Policy Number:", data.policyNumber),
     Row("Expiration Date:", data.expirationDate),
     DaysRow("Days Until Expiration:", DaysColor(u), IntToString(data.daysUntilExpiration))]
  }

  /** The blocks of the expiring notice, in order. */
  function ExpiringBlocks(data: ExpirationData): seq<string> {
    var days := IntToString(data.daysUntilExpiration);
    [Opening("Certificate Expiring Soon", "Certificate Expiring Soon"),
     Alert(Urgency(data.daysUntilExpiration), "Action Required:", "A vendor insurance certificate will expire in " + days + " days."),
     Intro("The following certificate requires your attention:"),
     Details(Concat(ExpiringRows(data))),
     ExpiringActions,
     Closing(data.certificateUrl, "View Certificate Details",
             "If you have questions, please contact the Risk Management office.")]
  }

  /** `certificateExpiringTemplate`. */
  function CertificateExpiringTemplate(data: ExpirationData): string {
    Concat(ExpiringBlocks(data))
  }

  /** The blocks of the non-compliance notice, in order. */
  function NonCompliantBlocks(data: NonCompliantData): seq<string> {
    [Opening("Non-Compliant Certificate", "Non-Compliant Insurance Certificate"),
     Alert("danger", "Compliance Issue:", "A vendor's insurance certificate does not meet Columbia's requirements."),
     Intro("The following vendor's certificate has been flagged as non-compliant:"),
     Details(Concat([Row("Vendor:", data.vendorName)])),
     GapList(ListItems(data.complianceGaps)),
     NonCompliantSteps,
     Closing(data.vendorUrl, "View Vendor Details",
             "For assistance, contact Risk Management at insurance@columbia.edu")]
  }

  /** `nonCompliantNotificationTemplate`. */
  function NonCompliantNotificationTemplate(data: NonCompliantData): string {
    Concat(NonCompliantBlocks(data))
  }

  /** The details rows of the pending-request reminder; an empty broker name shows "Not specified". */
  function PendingRows(data: PendingRequestData): seq<string> {
    [Row("Vendor:", data.vendorName),
     Row("Broker:", OrElse(Some(data.brokerName), "Not specified")),
     Row("Broker Email:", data.brokerEmail),
     Row("Requested Date:", data.requestedDate),
     DaysRow("Days Pending:", "#FF9F43", IntToString(data.daysPending))]
  }

  /** The blocks of the pending-request reminder, in order. */
  function PendingBlocks(data: PendingRequestData): seq<string> {
    var days := IntToString(data.daysPending);
    [Opening("Pending Certificate Request", "Pending Certificate Request"),
     Alert("info", "Follow-Up Needed:", "An insurance certificate request has been pending for " + days + " days."),
     Intro("The following certificate request is still awaiting response from the broker:"),
     Details(Concat(PendingRows(data))),
     PendingActionsStart,
     MailtoLink(data.brokerEmail),
     PendingActionsEnd,
     Closing(data.vendorUrl, "View Vendor Details",
             "Certificate requests are sent via Brokermatic integration.")]
  }

  /** `pendingRequestReminderTemplate`. */
  function PendingRequestReminderTemplate(data: PendingRequestData): string {
    Concat(PendingBlocks(data))
  }

  /** The details rows of the expired notice. */
  function ExpiredRows(data: ExpiredData): seq<string> {
    [Row("Vendor:", data.vendorName),
     Row("Coverage Type:", data.coverageType),
     Row("Policy Number:", data.policyNumber),
     Row("Expiration Date:", data.expirationDate),
     DaysRow("Days Overdue:", "#EA5455", IntToString(data.daysOverdue))]
  }

  /** The blocks of the expired notice, in order. */
  function ExpiredBlocks(data: ExpiredData): seq<string> {
    [Opening("Certificate Expired", "Certificate Expired"),
     Alert("danger", "Urgent Action Required:", "A vendor insurance certificate has expired."),
     Intro("The following certificate is no longer valid:"),
     Details(Concat(ExpiredRows(data))),
     ExpiredActions,
     Closing(data.vendorUrl, "View Vendor Details",
             "<strong>Critical:</strong> Working with uninsured vendors exposes the university to liability.")]
  }

  /** `certificateExpiredTemplate`. */
  function CertificateExpiredTemplate(data: ExpiredData): string {
    Concat(ExpiredBlocks(data))
  }

  // ---------------------------------------------------------------- properties

  lemma FoundInRow(caption: string, value: string)
    ensures Contains(Row(caption, value), ValueSpan(value))
  {
    ContainsItself(ValueSpan(value));
    ContainsExtendedLeft("\n" + "            <div class=\"details-row\">\n" + "              <span class=\"label\">" + caption + "</span>\n              ", ValueSpan(value), ValueSpan(value));
    ContainsExtendedRight("\n" + "            <div class=\"details-row\">\n" + "              <span class=\"label\">" + caption + "</span>\n              " + ValueSpan(value), "\n            </div>", ValueSpan(value));
  }

  lemma FoundInDaysRow(caption: string, color: string, days: string)
    ensures Contains(DaysRow(caption, color, days), DaysSpan(color, days))
  {
    ContainsItself(DaysSpan(color, days));
    ContainsExtendedLeft("\n" + "            <div class=\"details-row\">\n" + "              <span class=\"label\">" + caption + "</span>\n              ", DaysSpan(color, days), DaysSpan(color, days));
    ContainsExtendedRight("\n" + "            <div class=\"details-row\">\n" + "              <span class=\"label\">" + caption + "</span>\n              " + DaysSpan(color, days), "\n            </div>", DaysSpan(color, days));
  }

  lemma FoundInAlert(kind: string, lead: string, text: string)
    ensures Contains(Alert(kind, lead, text), AlertOpen(kind))
  {
    ContainsItself(AlertOpen(kind));
    ContainsExtendedLeft("          ", AlertOpen(kind), AlertOpen(kind));
    ContainsExtendedRight("          " + AlertOpen(kind), "\n            <strong>", AlertOpen(kind));
    ContainsExtendedRight("          " + AlertOpen(kind) + "\n            <strong>", lead, AlertOpen(kind));
    ContainsExtendedRight("          " + AlertOpen(kind) + "\n            <strong>" + lead, "</strong> ", AlertOpen(kind));
    ContainsExtendedRight("          " + AlertOpen(kind) + "\n            <strong>" + lead + "</strong> ", text, AlertOpen(kind));
    ContainsExtendedRight("          " + AlertOpen(kind) + "\n            <strong>" + lead + "</strong> " + text, "\n", AlertOpen(kind));
    ContainsExtendedRight("          " + AlertOpen(kind) + "\n            <strong>" + lead + "</strong> " + text + "\n", "          </div>\n", AlertOpen(kind));
    ContainsExtendedRight("          " + AlertOpen(kind) + "\n            <strong>" + lead + "</strong> " + text + "\n" + "          </div>\n", "\n", AlertOpen(kind));
  }

  lemma FoundInClosing(url: string, caption: string, note: string)
    ensures Contains(Closing(url, caption, note), ButtonLink(url, caption))
  {
    ContainsItself(ButtonLink(url, caption));
    ContainsExtendedLeft("          <center>\n            ", ButtonLink(url, caption), ButtonLink(url, caption));
    ContainsExtendedRight("          <center>\n            " + ButtonLink(url, caption), FooterStart, ButtonLink(url, caption));
    ContainsExtendedRight("          <center>\n            " + ButtonLink(url, caption) + FooterStart, note, ButtonLink(url, caption));
    ContainsExtendedRight("          <center>\n            " + ButtonLink(url, caption) + FooterStart + note, FooterEnd, ButtonLink(url, caption));
  }

  lemma FoundInGapList(items: string, n: string)
    requires Contains(items, n)
    ensures Contains(GapList(items), n)
  {
    ContainsExtendedLeft(GapListStart, items, n);
    ContainsExtendedRight(GapListStart + items, GapListEnd, n);
  }

  lemma FoundInDetails(rows: seq<string>, k: int, n: string)
    requires 0 <= k < |rows| && Contains(rows[k], n)
    ensures Contains(Details(Concat(rows)), n)
  {
    ConcatContains(rows, k, n);
    ContainsExtendedLeft("          <div class=\"details\">", Concat(rows), n);
    ContainsExtendedRight("          <div class=\"details\">" + Concat(rows), "\n", n);
    ContainsExtendedRight("          <div class=\"details\">" + Concat(rows) + "\n", "          </div>\n", n);
    ContainsExtendedRight("          <div class=\"details\">" + Concat(rows) + "\n" + "          </div>\n", "\n", n);
  }

  lemma ExpiringRowShown(data: ExpirationData, k: int, n: string)
    requires 0 <= k < 5 && Contains(ExpiringRows(data)[k], n)
    ensures Contains(CertificateExpiringTemplate(data), n)
  {
    FoundInDetails(ExpiringRows(data), k, n);
    ConcatContains(ExpiringBlocks(data), 3, n);
  }

  /** The expiring notice shows the vendor name, coverage type, policy number and
      expiration date verbatim, each inside its value cell. */
  lemma ExpiringTemplateShowsField(data: ExpirationData, k: int)
    requires 0 <= k < 4
    ensures Contains(CertificateExpiringTemplate(data),
                     ValueSpan([data.vendorName, data.coverageType, data.policyNumber, data.expirationDate][k]))
  {
    var caption := ["Vendor:", "Coverage Type:", "Policy Number:", "Expiration Date:"][k];
    var value := [data.vendorName, data.coverageType, data.policyNumber, data.expirationDate][k];
    assert ExpiringRows(data)[k] == Row(caption, value);
    FoundInRow(caption, value);
    ExpiringRowShown(data, k, ValueSpan(value));
  }

  /** The expiring notice links to the certificate. */
  lemma ExpiringTemplateShowsLink(data: ExpirationData)
    ensures Contains(CertificateExpiringTemplate(data), ButtonLink(data.certificateUrl, "View Certificate Details"))
  {
    FoundInClosing(data.certificateUrl, "View Certificate Details",
                   "If you have questions, please contact the Risk Management office.");
    ConcatContains(ExpiringBlocks(data), 5, ButtonLink(data.certificateUrl, "View Certificate Details"));
  }

  /** The expiring notice shows the urgency as the alert class and the day count
      in the urgency's colour. */
  lemma ExpiringTemplateShowsUrgency(data: ExpirationData)
    ensures var html := CertificateExpiringTemplate(data);
      var u := Urgency(data.daysUntilExpiration);
      Contains(html, AlertOpen(u))
      && Contains(html, DaysSpan(DaysColor(u), IntToString(data.daysUntilExpiration)))
  {
    var u := Urgency(data.daysUntilExpiration);
    var days := IntToString(data.daysUntilExpiration);
    FoundInAlert(u, "Action Required:", "A vendor insurance certificate will expire in " + days + " days.");
    ConcatContains(ExpiringBlocks(data), 1, AlertOpen(u));
    FoundInDaysRow("Days Until Expiration:", DaysColor(u), days);
    ExpiringRowShown(data, 4, DaysSpan(DaysColor(u), days));
  }

  /** Rendering the concatenation of two gap lists renders each in turn:
      items keep their order and nothing separates them. */
  lemma {:induction false} ListItemsAppend(a: seq<string>, b: seq<string>)
    ensures ListItems(a + b) == ListItems(a) + ListItems(b)
  {
    if a == [] {
      assert a + b == b;
    } else {
      assert (a + b)[1..] == a[1..] + b;
      ListItemsAppend(a[1..], b);
    }
  }

  /** Every gap is rendered, verbatim, as a list item. */
  lemma {:induction false} ListItemsShowEach(gaps: seq<string>, k: int)
    requires 0 <= k < |gaps|
    ensures Contains(ListItems(gaps), ListItem(gaps[k]))
  {
    if k == 0 {
      ContainsItself(ListItem(gaps[0]));
      ContainsExtendedRight(ListItem(gaps[0]), ListItems(gaps[1..]), ListItem(gaps[0]));
    } else {
      ListItemsShowEach(gaps[1..], k - 1);
      ContainsExtendedLeft(ListItem(gaps[0]), ListItems(gaps[1..]), ListItem(gaps[k]));
    }
  }

  /** The non-compliance notice shows the vendor name verbatim. */
  lemma NonCompliantTemplateShowsVendor(data: NonCompliantData)
    ensures Contains(NonCompliantNotificationTemplate(data), ValueSpan(data.vendorName))
  {
    FoundInRow("Vendor:", data.vendorName);
    FoundInDetails([Row("Vendor:", data.vendorName)], 0, ValueSpan(data.vendorName));
    ConcatContains(NonCompliantBlocks(data), 3, ValueSpan(data.vendorName));
  }

  lemma NonCompliantShowsInGapList(data: NonCompliantData, n: string)
    requires Contains(GapList(ListItems(data.complianceGaps)), n)
    ensures Contains(NonCompliantNotificationTemplate(data), n)
  {
    ConcatContains(NonCompliantBlocks(data), 4, n);
  }

  /** The non-compliance notice holds the whole gap list, and so an empty `<ul>`
      when there are no gaps. */
  lemma NonCompliantTemplateShowsGapList(data: NonCompliantData)
    ensures Contains(NonCompliantNotificationTemplate(data), GapList(ListItems(data.complianceGaps)))
  {
    ContainsItself(GapList(ListItems(data.complianceGaps)));
    NonCompliantShowsInGapList(data, GapList(ListItems(data.complianceGaps)));
  }

  /** The non-compliance notice holds every gap, verbatim, as a list item. */
  lemma NonCompliantTemplateShowsGap(data: NonCompliantData, k: int)
    requires 0 <= k < |data.complianceGaps|
    ensures Contains(NonCompliantNotificationTemplate(data), ListItem(data.complianceGaps[k]))
  {
    ListItemsShowEach(data.complianceGaps, k);
    FoundInGapList(ListItems(data.complianceGaps), ListItem(data.complianceGaps[k]));
    NonCompliantShowsInGapList(data, ListItem(data.complianceGaps[k]));
  }

  lemma PendingRowShown(data: PendingRequestData, k: int, n: string)
    requires 0 <= k < 5 && Contains(PendingRows(data)[k], n)
    ensures Contains(PendingRequestReminderTemplate(data), n)
  {
    FoundInDetails(PendingRows(data), k, n);
    ConcatContains(PendingBlocks(data), 3, n);
  }

  lemma PendingShowsValue(data: PendingRequestData, k: int, caption: string, value: string)
    requires 0 <= k < 4 && PendingRows(data)[k] == Row(caption, value)
    ensures Contains(PendingRequestReminderTemplate(data), ValueSpan(value))
  {
    FoundInRow(caption, value);
    PendingRowShown(data, k, ValueSpan(value));
  }

  lemma PendingShowsMailto(data: PendingRequestData)
    ensures Contains(PendingRequestReminderTemplate(data), MailtoLink(data.brokerEmail))
  {
    ContainsItself(MailtoLink(data.brokerEmail));
    ConcatContains(PendingBlocks(data), 5, MailtoLink(data.brokerEmail));
  }

  /** The reminder shows the broker name, or "Not specified" when it is empty. */
  lemma PendingTemplateShowsBroker(data: PendingRequestData)
    ensures data.brokerName == "" ==> Contains(PendingRequestReminderTemplate(data), ValueSpan("Not specified"))
    ensures data.brokerName != "" ==> Contains(PendingRequestReminderTemplate(data), ValueSpan(data.brokerName))
  {
    if data.brokerName == "" {
      PendingShowsValue(data, 1, "Broker:", "Not specified");
    } else {
      PendingShowsValue(data, 1, "Broker:", data.brokerName);
    }
  }

  /** The reminder shows the broker e-mail both as a value and as a mailto link. */
  lemma PendingTemplateShowsEmail(data: PendingRequestData)
    ensures var html := PendingRequestReminderTemplate(data);
      Contains(html, ValueSpan(data.brokerEmail)) && Contains(html, MailtoLink(data.brokerEmail))
  {
    PendingShowsValue(data, 2, "Broker Email:", data.brokerEmail);
    PendingShowsMailto(data);
  }

  /** The reminder shows the pending day count as given, in orange. */
  lemma PendingTemplateShowsDays(data: PendingRequestData)
    ensures Contains(PendingRequestReminderTemplate(data), DaysSpan("#FF9F43", IntToString(data.daysPending)))
  {
    FoundInDaysRow("Days Pending:", "#FF9F43", IntToString(data.daysPending));
    PendingRowShown(data, 4, DaysSpan("#FF9F43", IntToString(data.daysPending)));
  }

  lemma ExpiredRowShown(data: ExpiredData, k: int, n: string)
    requires 0 <= k < 5 && Contains(ExpiredRows(data)[k], n)
    ensures Contains(CertificateExpiredTemplate(data), n)
  {
    FoundInDetails(ExpiredRows(data), k, n);
    ConcatContains(ExpiredBlocks(data), 3, n);
  }

  /** The expired notice shows the overdue day count as given, in red, the vendor
      name verbatim and the vendor link. */
  lemma ExpiredTemplateShowsDays(data: ExpiredData)
    ensures var html := CertificateExpiredTemplate(data);
      Contains(html, DaysSpan("#EA5455", IntToString(data.daysOverdue)))
      && Contains(html, ValueSpan(data.vendorName))
      && Contains(html, ButtonLink(data.vendorUrl, "View Vendor Details"))
  {
    FoundInRow("Vendor:", data.vendorName);
    ExpiredRowShown(data, 0, ValueSpan(data.vendorName));
    FoundInDaysRow("Days Overdue:", "#EA5455", IntToString(data.daysOverdue));
    ExpiredRowShown(data, 4, DaysSpan("#EA5455", IntToString(data.daysOverdue)));
    FoundInClosing(data.vendorUrl, "View Vendor Details",
                   "<strong>Critical:</strong> Working with uninsured vendors exposes the university to liability.");
    ConcatContains(ExpiredBlocks(data), 5, ButtonLink(data.vendorUrl, "View Vendor Details"));
  }
}
