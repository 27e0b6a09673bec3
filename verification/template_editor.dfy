/** The e-mail template editor (src/custom-components/EmailTemplateEditor.tsx):
    the HTML detection the editor runs on the body, the subject and body
    edits, and what the detection switches on: the preview button and the
    editor's language. */
module TemplateEditor {
  import opened Text
  import opened Settings

  // ---------------------------------------------------------------------------
  // HTML detection

  /** Position `k` holds the letter that opens a tag begun by the `<` at `i`:
      either right after it, or after a `/`. The pattern is case-insensitive,
      which for `[a-z]` means any ASCII letter. */
  predicate TagLetterAt(s: string, i: int, k: int) {
    && 0 <= i < k < |s|
    && s[i] == '<'
    && (k == i + 1 || (k == i + 2 && s[i + 1] == '/'))
    && IsAsciiLetter(s[k])
  }

  /** `/<\/?[a-z][\s\S]*>/i` matches somewhere: a tag opening followed,
      anywhere later, by a `>`. */
  predicate HasTag(s: string) {
    exists i, k, m :: 0 <= i < k < m < |s| && TagLetterAt(s, i, k) && s[m] == '>'
  }

  predicate IsAlnum(c: char) {
    IsAsciiLetter(c) || IsAsciiDigit(c)
  }

  /** The characters strictly between `i + 1` and `j` are letters or digits. */
  predicate AlnumBetween(s: string, i: int, j: int)
    requires 0 <= i && j <= |s|
  {
    forall u :: i + 1 < u < j ==> IsAlnum(s[u])
  }

  /** `/&[a-zA-Z][a-zA-Z0-9]*;/` matches somewhere. */
  predicate HasEntity(s: string) {
    exists i, j :: 0 <= i && i + 1 < j < |s| && s[i] == '&' && IsAsciiLetter(s[i + 1])
                   && AlnumBetween(s, i, j) && s[j] == ';'
  }

  /** `isHtmlContent`. */
  predicate IsHtmlContent(s: string)
    ensures IsHtmlContent(s) ==> |s| >= 3
    ensures IsHtmlContent(s) ==> '<' in s || '&' in s
  {
    HasTag(s) || HasEntity(s)
  }

  /** Text without a `<` or an `&` is never taken for HTML. */
  lemma PlainTextIsNotHtml(s: string)
    requires '<' !in s && '&' !in s
    ensures !IsHtmlContent(s)
  {
    assert forall i :: 0 <= i < |s| ==> s[i] != '<' && s[i] != '&' by {
      forall i | 0 <= i < |s| ensures s[i] != '<' && s[i] != '&' {
        assert s[i] in s;
      }
    }
  }

  /** What the detection accepts and refuses: a closing tag, an entity, an
      upper-case tag; not a `<` before a blank, and not a tag that is never
      closed by a `>`. */
  lemma DetectionExamples()
    ensures IsHtmlContent("</p>")
    ensures IsHtmlContent("a &amp; b")
    ensures IsHtmlContent("<B>")
    ensures !IsHtmlContent("1 < 2")
    ensures !IsHtmlContent("<b")
  {
    assert TagLetterAt("</p>", 0, 2) && "</p>"[3] == '>';
    var e := "a &amp; b";
    assert e[2] == '&' && IsAsciiLetter(e[3]) && AlnumBetween(e, 2, 6) && e[6] == ';';
    assert HasEntity(e);
    assert TagLetterAt("<B>", 0, 1) && "<B>"[2] == '>';
    var lt := "1 < 2";
    assert forall i, k :: !TagLetterAt(lt, i, k);
    var open := "<b";
    assert forall m :: 0 <= m < |open| ==> open[m] != '>';
  }

  // ---------------------------------------------------------------------------
  // the editor

  /** The template the editor shows, and the detection flag its effect keeps. */
  datatype Editor = Editor(template: Template, isHtmlDetected: bool)

  /** The effect that runs after each render with a new body. */
  function SyncDetection(e: Editor): (r: Editor)
    ensures r.template == e.template
    ensures r.isHtmlDetected <==> IsHtmlContent(e.template.body)
  {
    e.(isHtmlDetected := IsHtmlContent(e.template.body))
  }

  /** `handleBodyChange`: the body is replaced, the subject kept. */
  function BodyChange(t: Template, value: string): (r: Template)
    ensures r.body == value && r.subject == t.subject
  {
    t.(body := value)
  }

  /** The subject input: the subject is replaced, the body kept. */
  function SubjectChange(t: Template, value: string): (r: Template)
    ensures r.subject == value && r.body == t.body
  {
    t.(subject := value)
  }

  /** The preview button is shown. */
  predicate ShowsPreview(e: Editor) {
    e.isHtmlDetected && e.template.body != ""
  }

  /** The language the editor highlights with. */
  function EditorLanguage(e: Editor): (language: string)
    ensures language == "html" <==> e.isHtmlDetected
    ensures language in {"html", "plaintext"}
  {
    if e.isHtmlDetected then "html" else "plaintext"
  }

  /** Once the effect has run after a body edit, the preview is offered and
      the editor highlights HTML exactly when the new body is HTML; a subject
      edit changes neither. */
  lemma EditThenSync(e: Editor, body: string, subject: string)
    ensures var r := SyncDetection(Editor(BodyChange(e.template, body), e.isHtmlDetected));
            && (ShowsPreview(r) <==> IsHtmlContent(body))
            && (EditorLanguage(r) == "html" <==> IsHtmlContent(body))
            && r.template.subject == e.template.subject
    ensures var r := SyncDetection(e);
            SyncDetection(Editor(SubjectChange(r.template, subject), r.isHtmlDetected)).isHtmlDetected == r.isHtmlDetected
  {
    if IsHtmlContent(body) {
      assert body != "" by {
        if HasTag(body) {
          var i, k, m :| 0 <= i < k < m < |body| && TagLetterAt(body, i, k) && body[m] == '>';
        }
      }
    }
  }
}
