/**
 * The part of Go's encoding/json that the identifier uses: decoding a JSON
 * value into a Go string. The parser is a parameter; what the identifier
 * relies on is that a quoted run of plain printable ASCII decodes to itself.
 */
module Json {

  import opened GoInts
  import opened Wrappers

  const QUOTE: byte := '"' as int
  const BACKSLASH: byte := '\\' as int

  /** `json.Unmarshal(data, &s)` for a string `s`: `None` is the returned error.
      JSON `null` is not an error: it leaves `s` empty, so it yields `Some([])`. */
  type Unquote = seq<byte> -> Option<seq<byte>>

  /** Printable ASCII with no quote and no backslash: needs no JSON escaping. */
  predicate Plain(s: seq<byte>)
  {
    forall i :: 0 <= i < |s| ==> 0x20 <= s[i] < 0x7f && s[i] != QUOTE && s[i] != BACKSLASH
  }

  /** A JSON string literal whose contents are taken verbatim. */
  function Quote(s: seq<byte>): (j: seq<byte>)
    ensures |j| == |s| + 2 && j[0] == QUOTE && j[|j| - 1] == QUOTE
    ensures j[1..|j| - 1] == s
  {
    [QUOTE] + s + [QUOTE]
  }

  /** The hypothesis about the parser: the literal of a plain string decodes to that string. */
  ghost predicate UnquotesPlain(unquote: Unquote)
  {
    forall s :: Plain(s) ==> unquote(Quote(s)) == Some(s)
  }

  /** The simplest parser meeting the hypothesis, so that the hypothesis is not vacuous. */
  function StripQuotes(j: seq<byte>): Option<seq<byte>>
  {
    if |j| >= 2 && j[0] == QUOTE && j[|j| - 1] == QUOTE then Some(j[1..|j| - 1]) else None
  }

  lemma StripQuotesUnquotesPlain()
    ensures UnquotesPlain(StripQuotes)
  {
  }
}
