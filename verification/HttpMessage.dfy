/** The HTTP/1.1 response text: how it is printed, and how a client reads it back. */
module HttpMessage {
  import opened Basics
  import opened Text

  const CRLF: string := "\r\n"
  const BLANK: string := "\r\n\r\n"
  const LENGTH_FIELD: string := "Content-Length: "

  /** The status line and the first headers, each ended by CRLF. */
  function Head(status: string, contentType: string, size: nat, extra: string): string {
    ("HTTP/1.1 " + status) + CRLF
    + (("Content-Type: " + contentType) + CRLF
       + ((LENGTH_FIELD + Decimal(size)) + CRLF
          + ("Connection: close" + CRLF + extra)))
  }

  function MakeHttpResponse(statusCode: int, statusText: string, contentType: string, body: string,
                            extraHeaders: string := ""): string {
    Head(SignedDecimal(statusCode) + " " + statusText, contentType, |body|, extraHeaders) + CRLF + body
  }

  function WrappedStatus(statusCode: int): (s: string)
    ensures '\r' !in s
  {
    if statusCode == 404 then "404 Not Found"
    else if statusCode == 400 then "400 Bad Request"
    else if statusCode == 401 then "401 Unauthorized"
    else if statusCode == 403 then "403 Forbidden"
    else if statusCode == 500 then "500 Internal Server Error"
    else "200 OK"
  }

  function WrappedType(response: string): (s: string)
    ensures '\r' !in s
  {
    if Contains(response, "<!DOCTYPE html>") || Contains(response, "<html>") then "text/html" else "application/json"
  }

  /**
   What writeResponse sends: the text itself if it already starts like an HTTP/1.1 message, else the
   text in an envelope. The envelope's status line repeats the code ("404 404 Not Found"), as the source prints it.
   */
  function Envelope(statusCode: int, response: string): string {
    if StartsWith(response, "HTTP/1.1") then response
    else MakeHttpResponse(statusCode, WrappedStatus(statusCode), WrappedType(response), response)
  }

  // ---------- The reader ----------

  /** The value of the first header line that starts with `name`. */
  function FieldValue(head: string, name: string): Option<string>
    decreases |head|
  {
    match Find(head, CRLF, 0)
    case None => None
    case Some(end) =>
      if StartsWith(head[..end], name) then Some(head[|name|..end])
      else FieldValue(head[end + 2..], name)
  }

  datatype Message = Message(head: string, body: string, rest: string)

  function TakeBody(head: string, text: string, size: Option<string>): Option<Message> {
    if size.None? || ParseDecimal(size.value).None? then None
    else var n := ParseDecimal(size.value).value;
         if n > |text| then None else Some(Message(head, text[..n], text[n..]))
  }

  /** Sections 2.1 and 6.3 of RFC 9112: the head ends at the first empty line, the body has Content-Length octets. */
  function ReadMessage(text: string): Option<Message> {
    match Find(text, BLANK, 0)
    case None => None
    case Some(at) => TakeBody(text[..at + 2], text[at + 4..], FieldValue(text[..at + 2], LENGTH_FIELD))
  }

  // ---------- Round trip ----------

  /** No empty line inside, and none at the front. */
  predicate NoBlankLine(s: string) {
    !Contains(s, BLANK) && !StartsWith(s, CRLF)
  }

  /** Zero or more header lines, each closed by CRLF. */
  predicate ExtraHeaders(s: string) {
    NoBlankLine(s) && (s == "" || (|s| >= 2 && s[|s| - 2..] == CRLF))
  }

  lemma PrependLine(line: string, s: string)
    requires line != "" && '\r' !in line && ExtraHeaders(s)
    ensures ExtraHeaders(line + CRLF + s)
  {
    var t := line + CRLF + s;
    assert t[|line|..|line| + 2] == CRLF && t[|line| + 2..] == s;
    forall i | 0 <= i && i + 4 <= |t| ensures !OccursAt(t, BLANK, i) {
      if i < |line| {
        assert t[i] == line[i];
        Mismatch(t, BLANK, i, 0);
      } else if i == |line| {
        assert s[..2] != CRLF;
        Mismatch(t, BLANK, i, if s[0] != '\r' then 2 else 3);
      } else if i == |line| + 1 {
        Mismatch(t, BLANK, i, 0);
      } else {
        OccursInSuffix(line + CRLF, s, BLANK, i - |line| - 2);
      }
    }
    assert t[0] == line[0];
    if s == "" {
      assert t == line + CRLF;
    } else {
      assert t[|t| - 2..] == s[|s| - 2..];
    }
  }

  lemma HeadIsClosed(status: string, contentType: string, size: nat, extra: string)
    requires '\r' !in status && '\r' !in contentType && ExtraHeaders(extra)
    ensures ExtraHeaders(Head(status, contentType, size, extra))
  {
    hide ExtraHeaders;
    var l1, l2, l3, l4 := "HTTP/1.1 " + status, "Content-Type: " + contentType, LENGTH_FIELD + Decimal(size), "Connection: close";
    assert '\r' !in l1 && '\r' !in l2 && '\r' !in l3 && '\r' !in l4;
    hide Decimal;
    PrependLine(l4, extra);
    PrependLine(l3, l4 + CRLF + extra);
    PrependLine(l2, l3 + CRLF + (l4 + CRLF + extra));
    PrependLine(l1, l2 + CRLF + (l3 + CRLF + (l4 + CRLF + extra)));
  }

  /** The empty line after the head is the first one, whatever the body contains. */
  lemma FirstBlank(head: string, body: string)
    requires ExtraHeaders(head) && head != ""
    ensures Find(head + CRLF + body, BLANK, 0) == Some(|head| - 2)
  {
    var t := head + CRLF + body;
    assert t[|head| - 2..|head| + 2] == BLANK;
    assert t == head + (CRLF + body);
    assert head[|head| - 2] == head[|head| - 2..][0] == '\r';
    forall i | 0 <= i < |head| - 2 ensures !OccursAt(t, BLANK, i) {
      if i + 4 <= |head| {
        OccursInPrefix(head, CRLF + body, BLANK, i);
      } else {
        Mismatch(t, BLANK, i, 1);
      }
    }
    FindIs(t, BLANK, 0, |head| - 2);
  }

  lemma FirstLine(line: string, rest: string, name: string)
    requires '\r' !in line
    ensures FieldValue(line + CRLF + rest, name)
         == if StartsWith(line, name) then Some(line[|name|..]) else FieldValue(rest, name)
  {
    var t := line + CRLF + rest;
    assert t[|line|..|line| + 2] == CRLF;
    forall i | 0 <= i < |line| ensures !OccursAt(t, CRLF, i) {
      assert t[i] == line[i];
      Mismatch(t, CRLF, i, 0);
    }
    FindIs(t, CRLF, 0, |line|);
    assert t[..|line|] == line && t[|line| + 2..] == rest;
    assert StartsWith(line, name) ==> t[|name|..|line|] == line[|name|..];
  }

  lemma LengthField(status: string, contentType: string, size: nat, extra: string)
    requires '\r' !in status && '\r' !in contentType
    ensures FieldValue(Head(status, contentType, size, extra), LENGTH_FIELD) == Some(Decimal(size))
  {
    var l1, l2, l3 := "HTTP/1.1 " + status, "Content-Type: " + contentType, LENGTH_FIELD + Decimal(size);
    var tail := "Connection: close" + CRLF + extra;
    hide Find, FieldValue;
    assert l1[0] == 'H' && LENGTH_FIELD[0] == 'C';
    assert l2[8] == 'T' && LENGTH_FIELD[8] == 'L';
    FirstLine(l1, l2 + CRLF + (l3 + CRLF + tail), LENGTH_FIELD);
    FirstLine(l2, l3 + CRLF + tail, LENGTH_FIELD);
    FirstLine(l3, tail, LENGTH_FIELD);
    assert l3[|LENGTH_FIELD|..] == Decimal(size);
  }

  lemma CutAround(a: string, sep: string, b: string)
    ensures (a + sep + b)[..|a|] == a && (a + sep + b)[|a| + |sep|..] == b
  {
  }

  lemma ReadSplit(head: string, body: string, size: string)
    requires ExtraHeaders(head) && head != ""
    requires FieldValue(head, LENGTH_FIELD) == Some(size) && ParseDecimal(size) == Some(|body|)
    ensures ReadMessage(head + CRLF + body) == Some(Message(head, body, ""))
  {
    FirstBlank(head, body);
    CutAround(head, CRLF, body);
    assert body[..|body|] == body && body[|body|..] == "";
    assert TakeBody(head, body, Some(size)) == Some(Message(head, body, ""));
  }

  /** For any body, reading the printed response returns exactly the body and leaves nothing over. */
  lemma ResponseRoundTrip(statusCode: int, statusText: string, contentType: string, body: string, extra: string)
    requires '\r' !in statusText && '\r' !in contentType && ExtraHeaders(extra)
    ensures ReadMessage(MakeHttpResponse(statusCode, statusText, contentType, body, extra))
         == Some(Message(Head(SignedDecimal(statusCode) + " " + statusText, contentType, |body|, extra), body, ""))
  {
    var status := SignedDecimal(statusCode) + " " + statusText;
    HeadIsClosed(status, contentType, |body|, extra);
    LengthField(status, contentType, |body|, extra);
    ParsePrinted(|body|);
    ReadSplit(Head(status, contentType, |body|, extra), body, Decimal(|body|));
  }

  // ---------- What the head says ----------

  /** The lines of a head, split at CRLF. */
  function Lines(head: string): seq<string>
    decreases |head|
  {
    match Find(head, CRLF, 0)
    case None => if head == "" then [] else [head]
    case Some(end) => [head[..end]] + Lines(head[end + 2..])
  }

  lemma LineFirst(line: string, rest: string)
    requires '\r' !in line
    ensures Lines(line + CRLF + rest) == [line] + Lines(rest)
  {
    var t := line + CRLF + rest;
    assert t[|line|..|line| + 2] == CRLF;
    forall i | 0 <= i < |line| ensures !OccursAt(t, CRLF, i) {
      assert t[i] == line[i];
      Mismatch(t, CRLF, i, 0);
    }
    FindIs(t, CRLF, 0, |line|);
    assert t[..|line|] == line && t[|line| + 2..] == rest;
  }

  lemma FourLines(l1: string, l2: string, l3: string, l4: string, extra: string)
    requires '\r' !in l1 && '\r' !in l2 && '\r' !in l3 && '\r' !in l4
    ensures Lines(l1 + CRLF + (l2 + CRLF + (l3 + CRLF + (l4 + CRLF + extra)))) == [l1, l2, l3, l4] + Lines(extra)
  {
    hide Lines;
    var t4 := l4 + CRLF + extra;
    LineFirst(l4, extra);
    var t3 := l3 + CRLF + t4;
    LineFirst(l3, t4);
    var t2 := l2 + CRLF + t3;
    LineFirst(l2, t3);
    LineFirst(l1, t2);
    assert [l1] + ([l2] + ([l3] + ([l4] + Lines(extra)))) == [l1, l2, l3, l4] + Lines(extra);
  }

  lemma LinesOfHead(status: string, contentType: string, size: nat, extra: string)
    requires '\r' !in status && '\r' !in contentType
    ensures Lines(Head(status, contentType, size, extra))
         == ["HTTP/1.1 " + status, "Content-Type: " + contentType, "Content-Length: " + Decimal(size), "Connection: close"]
            + Lines(extra)
  {
    hide Lines, Decimal;
    FourLines("HTTP/1.1 " + status, "Content-Type: " + contentType, LENGTH_FIELD + Decimal(size), "Connection: close", extra);
  }

  lemma Regroup(a: string, b: string, c: string, d: string)
    ensures a + (b + c + d) == a + b + c + d
  {
  }

  /** The client reads the status line, exactly these headers in this order, the extra ones at the end, and the body. */
  lemma ResponseLines(statusCode: int, statusText: string, contentType: string, body: string, extra: string)
    requires '\r' !in statusText && '\r' !in contentType && ExtraHeaders(extra)
    ensures var m := ReadMessage(MakeHttpResponse(statusCode, statusText, contentType, body, extra));
            && m.Some? && m.value.body == body && m.value.rest == ""
            && Lines(m.value.head)
               == ["HTTP/1.1 " + SignedDecimal(statusCode) + " " + statusText, "Content-Type: " + contentType,
                   "Content-Length: " + Decimal(|body|), "Connection: close"] + Lines(extra)
  {
    hide Lines, ReadMessage, Decimal, SignedDecimal, Head, MakeHttpResponse, ExtraHeaders;
    ResponseRoundTrip(statusCode, statusText, contentType, body, extra);
    LinesOfHead(SignedDecimal(statusCode) + " " + statusText, contentType, |body|, extra);
    Regroup("HTTP/1.1 ", SignedDecimal(statusCode), " ", statusText);
  }

  /** The field of that name in one of the lines. */
  function FieldIn(lines: seq<string>, name: string): Option<string> {
    if lines == [] then None
    else if StartsWith(lines[0], name) then Some(lines[0][|name|..])
    else FieldIn(lines[1..], name)
  }

  // ---------- The envelope of writeResponse ----------

  lemma PrintedIsHttp(statusCode: int, statusText: string, contentType: string, body: string, extra: string)
    ensures StartsWith(MakeHttpResponse(statusCode, statusText, contentType, body, extra), "HTTP/1.1")
  {
    var text := MakeHttpResponse(statusCode, statusText, contentType, body, extra);
    assert text[..9] == "HTTP/1.1 ";
    assert text[..8] == "HTTP/1.1 "[..8] == "HTTP/1.1";
  }

  /** Wrapping leaves the reply handlers' responses alone and is idempotent. */
  lemma EnvelopeIdempotent(code: int, code': int, response: string)
    ensures StartsWith(Envelope(code, response), "HTTP/1.1")
    ensures Envelope(code', Envelope(code, response)) == Envelope(code, response)
  {
    PrintedIsHttp(code, WrappedStatus(code), WrappedType(response), response, "");
  }

  lemma EnvelopeKeepsPrinted(code: int, statusCode: int, statusText: string, contentType: string, body: string, extra: string)
    ensures var text := MakeHttpResponse(statusCode, statusText, contentType, body, extra);
            Envelope(code, text) == text
  {
    PrintedIsHttp(statusCode, statusText, contentType, body, extra);
  }

  /** Any other text is delivered to the client as the body of the wrapped response. */
  lemma EnvelopeRoundTrip(code: int, response: string)
    requires !StartsWith(response, "HTTP/1.1")
    ensures ReadMessage(Envelope(code, response)).Some?
    ensures ReadMessage(Envelope(code, response)).value.body == response
    ensures ReadMessage(Envelope(code, response)).value.rest == ""
  {
    ResponseRoundTrip(code, WrappedStatus(code), WrappedType(response), response, "");
  }

  /** What the client reads of a wrapped text: the status with its code twice, the type guessed from the text, no more. */
  lemma EnvelopeLines(code: int, response: string)
    requires !StartsWith(response, "HTTP/1.1")
    ensures var m := ReadMessage(Envelope(code, response));
            && m.Some? && m.value.body == response
            && Lines(m.value.head)
               == ["HTTP/1.1 " + SignedDecimal(code) + " " + WrappedStatus(code), "Content-Type: " + WrappedType(response),
                   "Content-Length: " + Decimal(|response|), "Connection: close"]
  {
    assert Lines("") == [] && ExtraHeaders("");
    hide Lines, ReadMessage, Decimal, SignedDecimal, ExtraHeaders, Head, MakeHttpResponse;
    ResponseLines(code, WrappedStatus(code), WrappedType(response), response, "");
  }

  /** The status texts of the envelope, and its two content types. */
  lemma EnvelopeTexts(code: int, response: string)
    ensures WrappedStatus(404) == "404 Not Found" && WrappedStatus(400) == "400 Bad Request"
    ensures WrappedStatus(401) == "401 Unauthorized" && WrappedStatus(403) == "403 Forbidden"
    ensures WrappedStatus(500) == "500 Internal Server Error"
    ensures code !in {400, 401, 403, 404, 500} ==> WrappedStatus(code) == "200 OK"
    ensures WrappedType(response) == "text/html" <==>
              exists i :: OccursAt(response, "<!DOCTYPE html>", i) || OccursAt(response, "<html>", i)
    ensures WrappedType(response) in {"text/html", "application/json"}
  {
    assert "text/html"[0] != "application/json"[0];
    assert Contains(response, "<!DOCTYPE html>") ==> OccursAt(response, "<!DOCTYPE html>", Find(response, "<!DOCTYPE html>", 0).value);
    assert Contains(response, "<html>") ==> OccursAt(response, "<html>", Find(response, "<html>", 0).value);
  }
}
