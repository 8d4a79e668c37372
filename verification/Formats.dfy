/** The registered source formats and who stands for their extraction contract. */
module Formats {
  import opened Publication

  datatype Corpus = Code | Docs

  datatype Format = JavaScript | TypeScript | Markdown | Mdx | Rust

  /** Which older marker, if any, covered a format before it had a marker of its own. */
  datatype SnapshotContract = LegacyCode | LegacyDocumentation | PerFormatWhenPresent

  /** The constants compiled into one build of the program. */
  datatype Build = Build(extraction: Text, chunk: Text, rust: Text, projection: Text, provenance: Text)

  const ALL: seq<Format> := [JavaScript, TypeScript, Markdown, Mdx, Rust]

  function IndexOf(f: Format): (i: nat)
    ensures i < |ALL| && ALL[i] == f
  {
    match f
    case JavaScript => 0
    case TypeScript => 1
    case Markdown => 2
    case Mdx => 3
    case Rust => 4
  }

  lemma SameIndex(f: Format, g: Format)
    ensures IndexOf(f) == IndexOf(g) <==> f == g
  {
  }

  const ORIGIN_REPOSITORY := "repository"
  const ORIGIN_WORKSPACE := "workspace"
  const ORIGIN_DEPENDENCY := "dependency"

  function CorpusOf(f: Format): Corpus {
    if f.Markdown? || f.Mdx? then Docs else Code
  }

  function ContractOf(f: Format): SnapshotContract {
    match f
    case JavaScript | TypeScript => LegacyCode
    case Markdown | Mdx => LegacyDocumentation
    case Rust => PerFormatWhenPresent
  }

  function VersionOf(b: Build, f: Format): Text {
    match f
    case JavaScript | TypeScript => b.extraction
    case Markdown | Mdx => b.chunk
    case Rust => b.rust
  }

  function Id(f: Format): Text {
    match f
    case JavaScript => Ascii("javascript")
    case TypeScript => Ascii("typescript")
    case Markdown => Ascii("markdown")
    case Mdx => Ascii("mdx")
    case Rust => Ascii("rust")
  }

  lemma IdsDiffer(f: Format, g: Format)
    requires Id(f) == Id(g)
    ensures f == g
  {
    assert |"javascript"| == 10 && |"typescript"| == 10 && |"markdown"| == 8 && |"mdx"| == 3 && |"rust"| == 4;
    assert Ascii("javascript")[0] == 'j' as int && Ascii("typescript")[0] == 't' as int;
  }

  /** Formats that the type checker, the resolver and dependency indexing know. */
  predicate EcmaScript(f: Format) {
    f.JavaScript? || f.TypeScript?
  }
}
