/** `LogStyle.set_style`: the fixed table of styles per (format, level) and
    the header and footer of each format. Only Markdown ("md") and HTML
    ("html") are registered. */
module Registry {
  import opened Results
  import opened Levels
  import opened Styles

  /** One entry of `self.style`: the header and footer of a format and the
      style of each level. */
  datatype Bucket = Bucket(header: string, footer: string, styles: map<Level, Style>)

  /** `set_style()`: the registry the constructor installs. */
  function SetStyle(): map<string, Bucket> {
    map[
      "md" := Bucket(MarkdownHeader, MarkdownFooter, map l: Level | true :: MarkdownStyle(l)),
      "html" := Bucket(HtmlHeader, HtmlFooter, map l: Level | true :: HtmlStyle(l))
    ]
  }

  /** `self.style['md'][level]`. */
  function MarkdownStyle(l: Level): Style {
    match l
    case Critical => Style(Some("md"), MarkdownCriticalTitle, "**", "**  \n")
    case Error => Style(Some("md"), MarkdownErrorTitle, "**", "**  \n")
    case Warning => Style(Some("md"), MarkdownWarningTitle, "***", "***  \n")
    case Info => Style(Some("md"), MarkdownInfoTitle, "", "  \n")
    case Debug => Style(Some("md"), MarkdownDebugTitle, "", "  \n")
  }

  /** `self.style['html'][level]`. */
  function HtmlStyle(l: Level): Style {
    match l
    case Critical => Style(Some("html"), HtmlCriticalTitle, "", "<br>")
    case Error => Style(Some("html"), HtmlErrorTitle, "", "<br>")
    case Warning => Style(Some("html"), HtmlWarningTitle, "", "<br>")
    case Info => Style(Some("html"), HtmlInfoTitle, "", "<br>")
    case Debug => Style(Some("html"), HtmlDebugTitle, "", "<br>")
  }

  const MarkdownCriticalTitle := "## CRITICAL:  \n"
  const MarkdownErrorTitle := "### ERROR:  \n"
  const MarkdownWarningTitle := "**WARNING:**  \n"
  const MarkdownInfoTitle := "INFO:  \n"
  const MarkdownDebugTitle := "Debug:  \n"

  const HtmlCriticalTitle := "<h3 style=\"color:white;background-color:red;\"> CRITICAL:</h3>"
  const HtmlErrorTitle := "<h4 style=\"color:red;\"> ERROR:</h4>"
  const HtmlWarningTitle := "<h4 style=\"color:blue;\">WARNING:</h4>"
  const HtmlInfoTitle := "<br><b style=\"color:green;\">INFO:</b><br>"
  const HtmlDebugTitle := "<br><b>Debug:</b><br>"

  const MarkdownHeader := "# LOG REPORT  \n"
  const MarkdownFooter := "### End Report  \n"

  /** `self.style['html']['header']`: a triple-quoted literal, so it opens with
      a newline and ends with the eight spaces of the closing line's indent. */
  const HtmlHeader :=
    "\n        <!DOCTYPE html>\n        <html>\n        <head>\n        <style>\n"
    + "        table {\n            font-family: arial, sans-serif;\n"
    + "            border-collapse: collapse;\n            width: 100%;\n        }\n\n"
    + "        td, th {\n            border: 1px solid #dddddd;\n"
    + "            text-align: left;\n            padding: 8px;\n        }\n\n"
    + "        tr:nth-child(even) {\n            background-color: #dddddd;\n        }\n"
    + "        </style>\n        <title>Log Report</title>\n        </head>\n"
    + "        <body>\n        <h2>LOG REPORT</h2>\n        "

  /** `self.style['html']['footer']`. */
  const HtmlFooter := "\n        <h3>End Report </h3>\n        </body>\n        </html>\n        "

  /** Only "md" and "html" are registered; each bucket has a style for every
      level, tagged with the bucket's own key, so its tables come out in
      that bucket's markup. */
  lemma RegistryComplete(fmt: string, l: Level)
    ensures fmt in SetStyle() <==> fmt == "md" || fmt == "html"
    ensures fmt in SetStyle() ==> l in SetStyle()[fmt].styles && SetStyle()[fmt].styles[l].fmt == Some(fmt)
  {
  }

  /** In Markdown the line terminator closes the emphasis the prefix opens
      and ends in a hard line break. */
  lemma MarkdownTerminator(l: Level)
    ensures MarkdownStyle(l).EOL == MarkdownStyle(l).prefix + "  \n"
  {
  }

  /** In HTML there is no prefix and every line ends in `<br>`. */
  lemma HtmlTerminator(l: Level)
    ensures HtmlStyle(l).prefix == "" && HtmlStyle(l).EOL == "<br>"
  {
  }

}
