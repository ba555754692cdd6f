/**
 * The decoder of the provider's event stream: each chunk is appended to a carry-over
 * buffer, the buffer is split on newlines, the last piece is held back, and every
 * complete line is trimmed and, when it is a `data: ` line, parsed for the text delta
 * it carries. Non-empty deltas are accumulated into the full reply and forwarded to
 * the client in order.
 *
 * `JSON.parse` followed by `choices[0]?.delta?.content || ''` is the parameter
 * `extract`: `None` when either throws, otherwise the content as a string
 * (the empty string when it is absent or falsy).
 */
module EventStream {
  import opened Wrappers
  import opened JsString

  const DataPrefix := "data: "
  const DoneLine := "data: [DONE]"

  /** What one complete line contributes to the reply: a non-empty delta, or nothing. */
  function LineDelta(line: string, extract: string -> Option<string>): (d: Option<string>)
    ensures d.Some? ==> d.value != ""
    ensures d.Some? ==> StartsWith(Trim(line), DataPrefix) && Trim(line) != DoneLine
                        && extract(Trim(line)[|DataPrefix|..]) == d
  {
    var trimmed := Trim(line);
    if trimmed == "" || trimmed == DoneLine then None
    else if StartsWith(trimmed, DataPrefix) then
      match extract(trimmed[|DataPrefix|..])
      case None => None
      case Some(content) => if content != "" then Some(content) else None
    else None
  }

  /**
   * The lines that produce nothing: blank after trimming, the `[DONE]` sentinel, lines
   * without the `data: ` prefix, and data lines whose payload fails to parse or carries
   * no text.
   */
  lemma SkippedLines(line: string, extract: string -> Option<string>)
    ensures AllTrimmable(line) ==> LineDelta(line, extract).None?
    ensures Trim(line) == DoneLine ==> LineDelta(line, extract).None?
    ensures !StartsWith(Trim(line), DataPrefix) ==> LineDelta(line, extract).None?
    ensures StartsWith(Trim(line), DataPrefix) && extract(Trim(line)[|DataPrefix|..]) in {None, Some("")}
            ==> LineDelta(line, extract).None?
  {
    TrimEmptyIff(line);
  }

  /** Conversely, a data line other than the sentinel whose payload yields text contributes exactly that text. */
  lemma DataLineEmits(line: string, extract: string -> Option<string>, content: string)
    requires Trim(line) == DataPrefix + content
    requires Trim(line) != DoneLine
    requires extract(content).Some? && extract(content).value != ""
    ensures LineDelta(line, extract) == extract(content)
  {
    assert Trim(line)[|DataPrefix|..] == content;
  }

  /** `LineDelta` with the payload extractor fixed: the decoder the relay applies to every complete line. */
  function Decoder(extract: string -> Option<string>): string -> Option<string> {
    line => LineDelta(line, extract)
  }

  /** The values a sequence of complete lines yields under `decode`, in line order. */
  function Deltas(lines: seq<string>, decode: string -> Option<string>): (r: seq<string>)
  {
    if lines == [] then []
    else Deltas(lines[..|lines| - 1], decode) + Emitted(decode(lines[|lines| - 1]))
  }

  /** A decoded line as the list of values it enqueues: none or one. */
  function Emitted(d: Option<string>): seq<string> {
    if d.Some? then [d.value] else []
  }

  lemma DeltasSnoc(lines: seq<string>, line: string, decode: string -> Option<string>)
    ensures Deltas(lines + [line], decode) == Deltas(lines, decode) + Emitted(decode(line))
  {
    assert (lines + [line])[..|lines|] == lines;
  }

  /** Every value the relay enqueues is a non-empty string. */
  lemma {:induction false} DeltasNonEmpty(lines: seq<string>, extract: string -> Option<string>)
    ensures forall i :: 0 <= i < |Deltas(lines, Decoder(extract))| ==> Deltas(lines, Decoder(extract))[i] != ""
  {
    if lines != [] {
      var n := |lines| - 1;
      DeltasNonEmpty(lines[..n], extract);
      var d := LineDelta(lines[n], extract);
      assert Decoder(extract)(lines[n]) == d;
    }
  }

  /** Decoding distributes over a split of the lines: no line influences another. */
  lemma {:induction false} DeltasAppend(a: seq<string>, b: seq<string>, decode: string -> Option<string>)
    ensures Deltas(a + b, decode) == Deltas(a, decode) + Deltas(b, decode)
  {
    if b == [] {
      assert a + b == a;
    } else {
      var n := |b| - 1;
      var b', x := b[..n], b[n];
      DeltasAppend(a, b', decode);
      SnocSplit(a, b);
      DeltasSnoc(a + b', x, decode);
      DeltasSnoc(b', x, decode);
    }
  }

  /** Splitting the last element off a concatenation, for sequences of any element type. */
  lemma SnocSplit<T>(a: seq<T>, b: seq<T>)
    requires b != []
    ensures a + b == (a + b[..|b| - 1]) + [b[|b| - 1]]
    ensures b == b[..|b| - 1] + [b[|b| - 1]]
  {
  }

  /** A line that yields nothing (a malformed JSON payload, say) leaves its neighbours' deltas intact. */
  lemma DeltasSkip(a: seq<string>, line: string, b: seq<string>, decode: string -> Option<string>)
    requires decode(line).None?
    ensures Deltas(a + [line] + b, decode) == Deltas(a, decode) + Deltas(b, decode)
  {
    DeltasAppend(a + [line], b, decode);
    DeltasSnoc(a, line, decode);
  }

  /** The `[DONE]` sentinel is skipped, not obeyed: lines after it are still decoded. */
  lemma DoneDoesNotStop(a: seq<string>, b: seq<string>, extract: string -> Option<string>)
    ensures Deltas(a + [DoneLine] + b, Decoder(extract)) == Deltas(a, Decoder(extract)) + Deltas(b, Decoder(extract))
  {
    DoneLineYieldsNothing(extract);
    DeltasSkip(a, DoneLine, b, Decoder(extract));
  }

  lemma DoneLineYieldsNothing(extract: string -> Option<string>)
    ensures LineDelta(DoneLine, extract).None?
  {
    assert !IsTrimmable(DoneLine[0]) && !IsTrimmable(DoneLine[|DoneLine| - 1]);
    assert TrimStart(DoneLine) == DoneLine;
    assert TrimEnd(DoneLine) == DoneLine;
  }

  /** The text of a sequence of chunks, in order. */
  function Concat(parts: seq<string>): string {
    if parts == [] then "" else Concat(parts[..|parts| - 1]) + parts[|parts| - 1]
  }

  /** The deltas a whole stream yields: those of every line completed by a newline. */
  function StreamDeltas(chunks: seq<string>, extract: string -> Option<string>): seq<string> {
    Deltas(Lines(Concat(chunks)), Decoder(extract))
  }

  /**
   * When the stream ends, the held-back piece is discarded: a last line with no
   * newline after it never reaches the client, whatever it holds.
   */
  lemma UnterminatedTailDropped(chunks: seq<string>, tail: string, extract: string -> Option<string>)
    requires '\n' !in tail
    ensures StreamDeltas(chunks + [tail], extract) == StreamDeltas(chunks, extract)
  {
    var received := Concat(chunks);
    assert (chunks + [tail])[..|chunks|] == chunks;
    LinesAppend(received, tail);
    assert '\n' !in Carry(received) + tail;
    NoNewlineLines(Carry(received) + tail);
    assert Lines(received + tail) == Lines(received);
  }

  lemma ConcatSnoc(parts: seq<string>, part: string)
    ensures Concat(parts + [part]) == Concat(parts) + part
  {
    assert (parts + [part])[..|parts|] == parts;
  }

  lemma ConcatPrefixStep(body: seq<string>, k: nat)
    requires k < |body|
    ensures Concat(body[..k + 1]) == Concat(body[..k]) + body[k]
  {
    assert body[..k + 1] == body[..k] + [body[k]];
    ConcatSnoc(body[..k], body[k]);
  }

  /**
   * Reading a chunk on top of the text received so far: the deltas already sent stay,
   * the ones the carried buffer plus the chunk completes follow, and the new buffer is
   * the carry of the whole text.
   */
  lemma ReceiveStep(received: string, chunk: string, extract: string -> Option<string>)
    ensures Deltas(Lines(received + chunk), Decoder(extract))
            == Deltas(Lines(received), Decoder(extract)) + Deltas(Lines(Carry(received) + chunk), Decoder(extract))
    ensures Carry(received + chunk) == Carry(Carry(received) + chunk)
  {
    LinesAppend(received, chunk);
    DeltasAppend(Lines(received), Lines(Carry(received) + chunk), Decoder(extract));
  }

  lemma LineStep(lines: seq<string>, j: nat, extract: string -> Option<string>)
    requires j < |lines|
    ensures Deltas(lines[..j + 1], Decoder(extract)) == Deltas(lines[..j], Decoder(extract)) + Emitted(LineDelta(lines[j], extract))
  {
    assert lines[..j + 1] == lines[..j] + [lines[j]];
    DeltasSnoc(lines[..j], lines[j], Decoder(extract));
  }

  /**
   * Extending the decoded lines by `extra` extends what was sent by the same values.
   * This is the re-association step of `RelayLines`'s loop invariant, stated once over
   * any element type so that the solver does not have to search for it in each branch.
   */
  lemma ExtendBy<T>(sent: seq<T>, sent0: seq<T>, before: seq<T>, after: seq<T>, extra: seq<T>)
    requires sent == sent0 + before && after == before + extra
    ensures sent + extra == sent0 + after
    ensures extra == [] ==> sent == sent0 + after
  {
  }

  /** A blank line, the sentinel, or a line without the `data: ` prefix yields nothing. */
  lemma LineDeltaSkipped(line: string, extract: string -> Option<string>)
    requires Trim(line) == "" || Trim(line) == DoneLine || !StartsWith(Trim(line), DataPrefix)
    ensures LineDelta(line, extract) == None
  {
  }

  /** A `data: ` line other than the sentinel yields its extracted content when that is non-empty text. */
  lemma LineDeltaData(line: string, extract: string -> Option<string>)
    requires Trim(line) != "" && Trim(line) != DoneLine && StartsWith(Trim(line), DataPrefix)
    ensures var content := extract(Trim(line)[|DataPrefix|..]);
            LineDelta(line, extract) == if content.Some? && content.value != "" then content else None
  {
  }

  /**
   * The inner loop over the complete lines of one read. Each line is trimmed; a blank
   * line or the `[DONE]` sentinel is skipped; a `data: ` line has its payload parsed,
   * a parse failure being swallowed, and a non-empty delta is appended to `fullText`
   * and enqueued, in line order.
   */
  method RelayLines(lines: seq<string>, extract: string -> Option<string>, sent0: seq<string>, fullText0: string)
    returns (sent: seq<string>, fullText: string)
    requires fullText0 == Concat(sent0)
    ensures sent == sent0 + Deltas(lines, Decoder(extract))
    ensures fullText == Concat(sent)
  {
    sent, fullText := sent0, fullText0;
    for j := 0 to |lines|
      invariant sent == sent0 + Deltas(lines[..j], Decoder(extract))
      invariant fullText == Concat(sent)
    {
      ghost var before := Deltas(lines[..j], Decoder(extract));
      LineStep(lines, j, extract);
      var trimmed := Trim(lines[j]);
      if trimmed == "" || trimmed == DoneLine {
        LineDeltaSkipped(lines[j], extract);
        ExtendBy(sent, sent0, before, Deltas(lines[..j + 1], Decoder(extract)), []);
        continue;
      }
      if StartsWith(trimmed, DataPrefix) {
        var content := extract(trimmed[|DataPrefix|..]);
        LineDeltaData(lines[j], extract);
        if content.Some? && content.value != "" {
          ExtendBy(sent, sent0, before, Deltas(lines[..j + 1], Decoder(extract)), [content.value]);
          ConcatSnoc(sent, content.value);
          fullText := fullText + content.value;
          sent := sent + [content.value];
        } else {
          ExtendBy(sent, sent0, before, Deltas(lines[..j + 1], Decoder(extract)), []);
        }
      } else {
        LineDeltaSkipped(lines[j], extract);
        ExtendBy(sent, sent0, before, Deltas(lines[..j + 1], Decoder(extract)), []);
      }
    }
    assert lines[..|lines|] == lines;
  }

  /**
   * The `start` body of the relay stream: reads every chunk, keeps the incomplete last
   * line back in `buffer`, decodes each complete line, and enqueues every non-empty
   * delta (`sent`) while appending it to `fullText`. Whatever is left in `buffer`
   * when the source reports `done` is dropped.
   *
   * What is sent is the decoding of the complete lines of the whole text, however the
   * text was cut into chunks, and `fullText` is exactly what was sent, in order.
   */
  method Relay(body: seq<string>, extract: string -> Option<string>) returns (sent: seq<string>, fullText: string)
    ensures sent == StreamDeltas(body, extract)
    ensures fullText == Concat(sent)
  {
    var buffer := "";
    sent, fullText := [], "";
    var k := 0;
    ghost var received := "";
    while k < |body|
      invariant 0 <= k <= |body|
      invariant received == Concat(body[..k])
      invariant buffer == Carry(received)
      invariant sent == Deltas(Lines(received), Decoder(extract))
      invariant fullText == Concat(sent)
    {
      ReceiveStep(received, body[k], extract);
      ConcatPrefixStep(body, k);
      buffer := buffer + body[k];
      var pieces := Split(buffer);
      var lines := pieces[..|pieces| - 1];
      buffer := pieces[|pieces| - 1];
      sent, fullText := RelayLines(lines, extract, sent, fullText);
      received := received + body[k];
      k := k + 1;
    }
    assert body[..k] == body;
  }
}
