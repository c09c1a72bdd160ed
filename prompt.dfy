/** The request sent to the model in `getResponse` (src/App.jsx:68-98): a
    fixed instruction text, a blank line, the label `Website prompt: ` and the
    user's description verbatim.

    The properties are proved for a template built on any instruction text
    (`RequestFor`, `DescriptionIn`) and then applied to the text the
    component uses (`Compose`, `PromptOf`). */
module PromptComposer {
  import opened Options

  /** The instruction text of the template literal (src/App.jsx:68-96) as
      its four paragraphs, each a list of lines without their line breaks:
      the opening sentence, the output rules, the technical requirements and
      the final instruction. Long lines are written in pieces. */
  function InstructionParagraphs(): seq<seq<string>> {
    [ [ "You are an expert "
            + "frontend developer "
            + "and UI/UX designer. "
            + "The user will provide "
            + "a detailed prompt "
            + "describing what "
            + "kind of website "
            + "they want. Based "
            + "on the user\U{2019}s description, "
            + "generate a fully "
            + "working, production-ready "
            + "website as a **single "
            + "HTML file**. Use "
            + "only **HTML, Tailwind "
            + "CSS (via CDN)**, "
            + "vanilla JavaScript, "
            + "and GSAP (via CDN).  "
      ],
      [ "Strict output rules:",
        "- Return the website "
            + "as a single fenced "
            + "Markdown code block "
            + "with the language "
            + "tag.  ",
        "- Do NOT include "
            + "any explanations, "
            + "text, or extra code "
            + "blocks outside that "
            + "single block. Only "
            + "the HTML file content.  "
      ],
      [ "Technical requirements:",
        "1. **Stack**: HTML "
            + "+ Tailwind CSS (via "
            + "CDN) + vanilla JavaScript "
            + "+ GSAP (via CDN). "
            + "Everything in one "
            + "file.  ",
        "2. **Responsive**: "
            + "Must be fully responsive "
            + "(mobile, tablet, "
            + "desktop) with modern "
            + "grid and flex layouts.  ",
        "3. **Theme**: Default "
            + "**dark mode**, but "
            + "if the website type "
            + "fits better in light "
            + "mode, auto-select "
            + "light mode. Include "
            + "a **toggle button** "
            + "to switch between "
            + "dark and light themes.  ",
        "4. **Animations "
            + "& Interactions**:  ",
        "   - GSAP scroll-based "
            + "animations (fade, "
            + "slide, stagger, "
            + "parallax).  ",
        "   - Smooth hover "
            + "effects with scale, "
            + "shadow, and gradient "
            + "transitions.  ",
        "   - Sticky navbar "
            + "with subtle shadow "
            + "on scroll.  ",
        "   - Animated gradient "
            + "backgrounds or floating "
            + "decorative shapes.  ",
        "5. **Visual richness**:  ",
        "   - Use high-quality "
            + "**royalty-free images** "
            + "(Unsplash via direct "
            + "URLs).  ",
        "   - Apply **soft "
            + "shadows, glassmorphism, "
            + "or neumorphism** "
            + "effects where suitable.  ",
        "   - Modern cards, "
            + "rounded corners, "
            + "gradient buttons, "
            + "hover animations.  ",
        "6. **UI Sections** "
            + "(as per user request):  ",
        "   - Sticky **Navbar** "
            + "with logo + links "
            + "+ theme toggle.  ",
        "   - **Hero section** "
            + "with headline, subheadline, "
            + "CTA button, and "
            + "background image/gradient.  ",
        "   - **Main content**: "
            + "features grid, product "
            + "showcase, gallery, "
            + "blog cards, or whatever "
            + "fits user\U{2019}s request.  ",
        "   - **Call to Action** "
            + "with strong button.  ",
        "   - **Footer** "
            + "with the text: \"Made "
            + "with WebBuilder\"  ",
        "7. **Code quality**: "
            + "Clean, semantic "
            + "HTML5, ARIA labels "
            + "for accessibility, "
            + "well-indented, professional "
            + "Tailwind usage.  ",
        "8. **Performance**: "
            + "Optimized. No external "
            + "CSS/JS frameworks "
            + "beyond Tailwind "
            + "+ GSAP. Use responsive "
            + "images, gradients, "
            + "inline SVGs, or "
            + "Unsplash placeholders.  "
      ],
      [ "Final instruction: "
            + "Output only the "
            + "single fenced Markdown "
            + "code block with "
            + "the full HTML file "
            + "content. Nothing "
            + "else.  "
      ]
    ]
  }

  /** Lines joined with a line feed between consecutive ones. */
  function JoinLines(lines: seq<string>): string {
    if lines == [] then ""
    else if |lines| == 1 then lines[0]
    else lines[0] + "\n" + JoinLines(lines[1..])
  }

  /** Paragraphs joined with a blank line between consecutive ones. */
  function JoinParagraphs(ps: seq<seq<string>>): string {
    if ps == [] then ""
    else if |ps| == 1 then JoinLines(ps[0])
    else JoinLines(ps[0]) + "\n\n" + JoinParagraphs(ps[1..])
  }

  /** The instruction text: the paragraphs separated by blank lines, with
      no line break after the last one. */
  function Instructions(): string {
    JoinParagraphs(InstructionParagraphs())
  }

  /** The label in front of the user's description (src/App.jsx:98). */
  const PromptLabel: string := "Website prompt: "

  /** Everything a request built on `instructions` holds before the description. */
  function PreambleOf(instructions: string): string {
    instructions + "\n\n" + PromptLabel
  }

  /** The template literal, with `instructions` as its fixed text. */
  function RequestFor(instructions: string, prompt: string): string {
    PreambleOf(instructions) + prompt
  }

  /** The inverse of `RequestFor`: the description a request carries, if it
      starts with the preamble. */
  function DescriptionIn(instructions: string, request: string): (prompt: Option<string>)
    ensures prompt.Some? <==> |request| >= |PreambleOf(instructions)|
                              && request[..|PreambleOf(instructions)|] == PreambleOf(instructions)
    ensures prompt.Some? ==> request == PreambleOf(instructions) + prompt.value
  {
    var preamble := PreambleOf(instructions);
    if |request| >= |preamble| && request[..|preamble|] == preamble then
      assert request == preamble + request[|preamble|..];
      Some(request[|preamble|..])
    else
      None
  }

  /** A request carries the description it was built from. */
  lemma DescriptionInRequestFor(instructions: string, prompt: string)
    ensures DescriptionIn(instructions, RequestFor(instructions, prompt)) == Some(prompt)
  {
    var preamble := PreambleOf(instructions);
    assert RequestFor(instructions, prompt)[..|preamble|] == preamble;
  }

  /** A request that carries a description is the request built from it. */
  lemma RequestForDescriptionIn(instructions: string, request: string)
    requires DescriptionIn(instructions, request).Some?
    ensures RequestFor(instructions, DescriptionIn(instructions, request).value) == request
  {
  }

  /** Requests built on the same instruction text differ exactly when their
      descriptions differ. */
  lemma {:induction false} RequestForInjective(instructions: string, p1: string, p2: string)
    ensures RequestFor(instructions, p1) == RequestFor(instructions, p2) <==> p1 == p2
  {
    if RequestFor(instructions, p1) == RequestFor(instructions, p2) {
      DescriptionInRequestFor(instructions, p1);
      DescriptionInRequestFor(instructions, p2);
    }
  }

  /** Every request built on `instructions` starts with the same preamble,
      whatever the description, that preamble ends with the label, and the
      description follows it verbatim as the suffix. */
  lemma RequestForShape(instructions: string, prompt: string, other: string)
    ensures var r := RequestFor(instructions, prompt);
            var n := |PreambleOf(instructions)|;
            |r| == n + |prompt|
            && r[..n] == RequestFor(instructions, other)[..n]
            && r[n - |PromptLabel|..n] == PromptLabel
            && r[n..] == prompt
  {
    var n := |PreambleOf(instructions)|;
    assert RequestFor(instructions, prompt)[..n] == PreambleOf(instructions);
    assert RequestFor(instructions, other)[..n] == PreambleOf(instructions);
    assert PreambleOf(instructions)[n - |PromptLabel|..] == PromptLabel;
  }

  /** The request for the component's instruction text. */
  function Compose(prompt: string): string {
    RequestFor(Instructions(), prompt)
  }

  /** The description in a request built on the component's instruction text. */
  function PromptOf(request: string): Option<string> {
    DescriptionIn(Instructions(), request)
  }

  /** Decomposing a composed request gives back the description, verbatim. */
  lemma PromptOfCompose(prompt: string)
    ensures PromptOf(Compose(prompt)) == Some(prompt)
  {
    DescriptionInRequestFor(Instructions(), prompt);
  }
}
