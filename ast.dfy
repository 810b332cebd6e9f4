/** The small part of the document model the filter touches: inline and
    block nodes, code blocks whose text the filter rewrites in place, the
    document with its header-includes list and bookkeeping fields, and the
    outside capabilities (file reading, process execution, the Python REPL and
    the Markdown-to-LaTeX converter) as oracle functions. */
module Ast {
  import opened Wrappers

  /** Python's `attributes.get(key, default)`. */
  function Get(attributes: map<string, string>, key: string, default: string): string
  {
    if key in attributes then attributes[key] else default
  }

  datatype Inline =
    | Str(text: string)
    | Emph(content: seq<Inline>)
    | Space
    | Code(text: string)
    | RawInline(text: string, format: string)

  /** A code block of the input document. Its classes and attributes are
      never changed by the filter; its text is. */
  class CodeBlock {
    var text: string
    const classes: seq<string>
    const attributes: map<string, string>

    constructor (text: string, classes: seq<string>, attributes: map<string, string>)
      ensures this.text == text && this.classes == classes && this.attributes == attributes
    {
      this.text := text;
      this.classes := classes;
      this.attributes := attributes;
    }
  }

  /** A block the filter returns. `Block` is an input code block held by
      reference, so whatever text it has when the document is written out is
      what appears; the others are values the filter builds. */
  datatype Node =
    | Block(block: CodeBlock)
    | NewCodeBlock(text: string, classes: seq<string>)
    | RawBlock(text: string, format: string)
    | Para(content: seq<Inline>)

  /** An element the document traversal hands to the filter. */
  datatype Element =
    | CodeBlockElement(block: CodeBlock)
    | OtherElement

  /** One entry of the `header-includes` metadata list. */
  datatype MetaItem = MetaInlines(content: seq<Inline>)

  /** The document. `headerIncludes` is `None` while the metadata has no
      `header-includes` key; the three bookkeeping fields are the ones the
      filter attaches to the document object. */
  class Doc {
    var headerIncludes: Option<seq<MetaItem>>
    var listingsCounter: nat
    var captionFound: bool
    var plotFound: bool

    constructor (headerIncludes: Option<seq<MetaItem>>)
      ensures this.headerIncludes == headerIncludes
      ensures listingsCounter == 0 && !captionFound && !plotFound
    {
      this.headerIncludes := headerIncludes;
      listingsCounter := 0;
      captionFound := false;
      plotFound := false;
    }
  }

  /** What the filter asks of the world outside it.
      - `readFile(pattern)`: the contents of the first file matching the
        pattern below the working directory, or "" when none does;
      - `run(argv, cwd)`: the merged stdout and stderr of a process;
      - `replAvailable`: whether the REPL library could be imported;
      - `repl(sent)`: the REPL's answer to the last statement of `sent`,
        given that the earlier ones were sent to the same session before;
      - `toLatex(markdown)`: the converter's LaTeX rendering of a string. */
  datatype Env = Env(
    readFile: string -> string,
    run: (seq<string>, Option<string>) -> string,
    replAvailable: bool,
    repl: seq<string> -> string,
    toLatex: string -> string)
}
