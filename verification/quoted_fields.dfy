/**
  The splitter for a line of double-quoted, comma-separated fields such as
  "11/03/2020","3,369.20","3,336.20": it takes the text between position 1
  and the next quote as a field, drops that quote and the comma after it,
  and repeats until the line is used up or no further quote is found.
*/
module QuotedFields {
  import opened Wrappers

  const Quote: char := '"'

  /** The first position at or after `from` that holds c. */
  function FindFrom(line: string, c: char, from: nat): (found: Option<nat>)
    decreases |line| - from
    ensures found.Some? ==> from <= found.value < |line|
  {
    if from >= |line| then None
    else if line[from] == c then Some(from)
    else FindFrom(line, c, from + 1)
  }

  /** FindFrom finds nothing exactly when no position from `from` on holds c,
      and otherwise a position holding c with none before it. */
  lemma {:induction false} FindFromSpec(line: string, c: char, from: nat)
    decreases |line| - from
    ensures FindFrom(line, c, from).None? <==> forall i :: from <= i < |line| ==> line[i] != c
    ensures FindFrom(line, c, from).Some? ==>
              && line[FindFrom(line, c, from).value] == c
              && forall i :: from <= i < FindFrom(line, c, from).value ==> line[i] != c
  {
    if from < |line| && line[from] != c {
      FindFromSpec(line, c, from + 1);
    }
  }

  /** A position holding c with none before it, from `from` on, is what
      FindFrom finds. */
  lemma {:induction false} FindFromFirst(line: string, c: char, from: nat, k: nat)
    requires from <= k < |line|
    requires line[k] == c
    requires forall i :: from <= i < k ==> line[i] != c
    ensures FindFrom(line, c, from) == Some(k)
    decreases k - from
  {
    if from < k {
      FindFromFirst(line, c, from + 1, k);
    }
  }

  /** FindFrom looks only at positions from `from` on. */
  lemma {:induction false} FindFromLooksAhead(a: string, b: string, c: char, from: nat)
    requires |a| == |b|
    requires forall i :: from <= i < |a| ==> a[i] == b[i]
    ensures FindFrom(a, c, from) == FindFrom(b, c, from)
    decreases |a| - from
  {
    if from < |a| && a[from] != c {
      FindFromLooksAhead(a, b, c, from + 1);
    }
  }

  /** The fields taken and the text left when the splitter stopped. */
  datatype Split = Split(tokens: seq<string>, rest: string)

  /** Erasing the first n characters, n clamped at the length. */
  function Erase(line: string, n: nat): (left: string)
    ensures |left| == if n < |line| then |line| - n else 0
    ensures left == line[|line| - |left|..]
  {
    if n < |line| then line[n..] else []
  }

  /**
    The splitter: while the line is non-empty, find the first quote at
    position 1 or later; if there is none, stop; otherwise take the text
    from position 1 up to it as a field, whatever character 0 was, and erase
    through the character after the quote.
  */
  function SplitQuoted(line: string): Split
    decreases |line|
  {
    if line == [] then Split([], [])
    else
      var found := FindFrom(line, Quote, 1);
      if found.None? then Split([], line)
      else
        var q := found.value;
        var after := SplitQuoted(Erase(line, q + 2));
        Split([line[1..q]] + after.tokens, after.rest)
  }

  /** Fields never contain a quote. */
  lemma {:induction false} TokensQuoteFree(line: string)
    decreases |line|
    ensures forall t :: t in SplitQuoted(line).tokens ==> Quote !in t
  {
    if line != [] && FindFrom(line, Quote, 1).Some? {
      var q := FindFrom(line, Quote, 1).value;
      SplitUnfold(line, q);
      FindFromSpec(line, Quote, 1);
      TokensQuoteFree(Erase(line, q + 2));
      var token := line[1..q];
      assert forall i :: 0 <= i < |token| ==> token[i] == line[i + 1];
    }
  }

  /** Each field takes at least two characters of the line, and the text
      left over is a suffix of it. */
  lemma {:induction false} SplitConsumes(line: string)
    decreases |line|
    ensures 2 * |SplitQuoted(line).tokens| + |SplitQuoted(line).rest| <= |line|
    ensures SplitQuoted(line).rest == line[|line| - |SplitQuoted(line).rest|..]
  {
    if line != [] && FindFrom(line, Quote, 1).Some? {
      var q := FindFrom(line, Quote, 1).value;
      SplitUnfold(line, q);
      var next := Erase(line, q + 2);
      SplitConsumes(next);
      SuffixOfSuffix(line, next, SplitQuoted(next).rest);
    }
  }

  /** A suffix of a suffix is a suffix. */
  lemma SuffixOfSuffix(line: string, next: string, rest: string)
    requires |next| <= |line| && next == line[|line| - |next|..]
    requires |rest| <= |next| && rest == next[|next| - |rest|..]
    ensures rest == line[|line| - |rest|..]
  {
  }

  /** The splitter stops only when the text is used up or holds no quote past
      its first character; a line with no such quote is left whole. */
  lemma {:induction false} SplitStops(line: string)
    decreases |line|
    ensures SplitQuoted(line).rest == [] || FindFrom(SplitQuoted(line).rest, Quote, 1).None?
    ensures line != [] && FindFrom(line, Quote, 1).None? ==> SplitQuoted(line) == Split([], line)
  {
    if line != [] && FindFrom(line, Quote, 1).Some? {
      var q := FindFrom(line, Quote, 1).value;
      SplitUnfold(line, q);
      SplitStops(Erase(line, q + 2));
    }
  }

  /**
    The splitting loop as written, one field per pass; it computes
    SplitQuoted, so its fields are quote-free and at most half as many as the
    line has characters.
  */
  method SplitLine(line: string) returns (tokens: seq<string>, rest: string)
    ensures tokens == SplitQuoted(line).tokens
    ensures rest == SplitQuoted(line).rest
    ensures forall t :: t in tokens ==> Quote !in t
    ensures 2 * |tokens| <= |line|
  {
    var text := line;
    tokens := [];
    while text != []
      invariant SplitQuoted(line).tokens == tokens + SplitQuoted(text).tokens
      invariant SplitQuoted(line).rest == SplitQuoted(text).rest
      decreases |text|
    {
      var found := FindFrom(text, Quote, 1);
      if found.None? {
        SplitStopsAt(text);
        break;
      }
      var q := found.value;
      SplitAdvances(line, tokens, text, q);
      tokens := tokens + [text[1..q]];
      text := Erase(text, q + 2);
    }
    rest := text;
    assert tokens + [] == tokens;
    TokensQuoteFree(line);
    SplitConsumes(line);
  }

  /** The loop's exit without a quote: nothing more is taken. */
  lemma SplitStopsAt(text: string)
    requires text != []
    requires FindFrom(text, Quote, 1).None?
    ensures SplitQuoted(text) == Split([], text)
  {
  }

  /** One pass of the loop keeps what is taken plus what remains equal to
      the split of the whole line. */
  lemma SplitAdvances(line: string, tokens: seq<string>, text: string, q: nat)
    requires text != []
    requires FindFrom(text, Quote, 1) == Some(q)
    requires SplitQuoted(line).tokens == tokens + SplitQuoted(text).tokens
    requires SplitQuoted(line).rest == SplitQuoted(text).rest
    ensures 1 <= q < |text| && |Erase(text, q + 2)| < |text|
    ensures SplitQuoted(line).tokens == (tokens + [text[1..q]]) + SplitQuoted(Erase(text, q + 2)).tokens
    ensures SplitQuoted(line).rest == SplitQuoted(Erase(text, q + 2)).rest
  {
    SplitUnfold(text, q);
    var rest := SplitQuoted(Erase(text, q + 2)).tokens;
    assert tokens + ([text[1..q]] + rest) == (tokens + [text[1..q]]) + rest;
  }

  /** One pass of the splitter: a field, then the split of what is left. */
  lemma SplitUnfold(text: string, q: nat)
    requires text != []
    requires FindFrom(text, Quote, 1) == Some(q)
    ensures 1 <= q < |text|
    ensures |Erase(text, q + 2)| < |text|
    ensures SplitQuoted(text).tokens == [text[1..q]] + SplitQuoted(Erase(text, q + 2)).tokens
    ensures SplitQuoted(text).rest == SplitQuoted(Erase(text, q + 2)).rest
  {
    var after := SplitQuoted(Erase(text, q + 2));
    assert SplitQuoted(text) == Split([text[1..q]] + after.tokens, after.rest);
  }

  /** A line of quoted fields separated by commas, as the splitter expects it. */
  function Join(fields: seq<string>): string
  {
    if fields == [] then []
    else if |fields| == 1 then [Quote] + fields[0] + [Quote]
    else [Quote] + fields[0] + [Quote] + ([','] + Join(fields[1..]))
  }

  /** In a line starting with a quoted field, the field's closing quote is the
      first quote after position 0. */
  lemma ClosingQuote(f: string, tail: string)
    requires Quote !in f
    ensures FindFrom([Quote] + f + [Quote] + tail, Quote, 1) == Some(|f| + 1)
  {
    var line := [Quote] + f + [Quote] + tail;
    assert forall i :: 1 <= i < |f| + 1 ==> line[i] == f[i - 1];
    assert line[|f| + 1] == Quote;
    FindFromFirst(line, Quote, 1, |f| + 1);
  }

  /** Splitting a joined line gives back its fields, in order, with nothing
      left over, provided no field contains a quote. */
  lemma {:induction false} SplitJoin(fields: seq<string>)
    requires forall f :: f in fields ==> Quote !in f
    ensures SplitQuoted(Join(fields)).tokens == fields
    ensures SplitQuoted(Join(fields)).rest == []
  {
    if |fields| == 1 {
      SplitLastField(fields[0]);
    } else if |fields| > 1 {
      SplitJoin(fields[1..]);
      SplitField(fields[0], [','] + Join(fields[1..]));
      assert ([','] + Join(fields[1..]))[1..] == Join(fields[1..]);
      assert [fields[0]] + fields[1..] == fields;
    }
  }

  /** The last field: the clamped erase empties the line. */
  lemma SplitLastField(f: string)
    requires Quote !in f
    ensures SplitQuoted([Quote] + f + [Quote]).tokens == [f]
    ensures SplitQuoted([Quote] + f + [Quote]).rest == []
  {
    SplitField(f, []);
    assert [Quote] + f + [Quote] + [] == [Quote] + f + [Quote];
  }

  /** A quoted field and a tail: the field is taken and the splitter goes on
      after the tail's first character. */
  lemma SplitField(f: string, tail: string)
    requires Quote !in f
    ensures SplitQuoted([Quote] + f + [Quote] + tail).tokens
         == [f] + SplitQuoted(if tail == [] then [] else tail[1..]).tokens
    ensures SplitQuoted([Quote] + f + [Quote] + tail).rest
         == SplitQuoted(if tail == [] then [] else tail[1..]).rest
  {
    var line := [Quote] + f + [Quote] + tail;
    ClosingQuote(f, tail);
    SplitUnfold(line, |f| + 1);
    FieldPieces(f, tail);
  }

  /** Where the field and the remainder sit in [Quote] + f + [Quote] + tail. */
  lemma FieldPieces(f: string, tail: string)
    ensures ([Quote] + f + [Quote] + tail)[1..|f| + 1] == f
    ensures Erase([Quote] + f + [Quote] + tail, |f| + 3) == if tail == [] then [] else tail[1..]
  {
    var line := [Quote] + f + [Quote] + tail;
    assert line[1..|f| + 1] == f;
    if tail != [] {
      assert line[|f| + 3..] == tail[1..];
    }
  }

  /** Character 0 is skipped without being looked at: lines that differ only
      there split into the same fields. */
  lemma FirstCharacterIgnored(a: char, b: char, tail: string)
    ensures SplitQuoted([a] + tail).tokens == SplitQuoted([b] + tail).tokens
  {
    var la := [a] + tail;
    var lb := [b] + tail;
    assert forall i :: 1 <= i < |la| ==> la[i] == lb[i];
    var fa := FindFrom(la, Quote, 1);
    var fb := FindFrom(lb, Quote, 1);
    FindFromLooksAhead(la, lb, Quote, 1);
    if fa.Some? {
      var q := fa.value;
      assert la[1..q] == lb[1..q];
      assert Erase(la, q + 2) == Erase(lb, q + 2);
    }
  }
}
