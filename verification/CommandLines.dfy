/** The lines of the handshake in plain bytes (container/dbus/sasl.go:12-19, 40-122). */
module CommandLines {
  import opened Bytes
  import opened Wrappers
  import opened Handshake

  /** Tab, line feed, vertical tab, form feed, carriage return and space. */
  predicate White(c: byte) {
    9 <= c <= 13 || c == 32
  }

  predicate Spaces(s: Text) {
    forall i :: 0 <= i < |s| ==> White(s[i])
  }

  predicate Word(w: Text) {
    w != [] && forall i :: 0 <= i < |w| ==> !White(w[i])
  }

  /** What may stand behind a word: nothing, or something that begins with white space. */
  predicate Parted(tail: Text) {
    tail != [] ==> White(tail[0])
  }

  lemma {:induction false} LeadingSpan(a: Text, tail: Text, spaces: bool)
    requires forall i :: 0 <= i < |a| ==> White(a[i]) == spaces
    requires tail != [] ==> White(tail[0]) != spaces
    ensures Leading(a + tail, spaces) == |a|
    decreases |a|
  {
    if a == [] {
      assert a + tail == tail;
    } else {
      assert (a + tail)[1..] == a[1..] + tail;
      LeadingSpan(a[1..], tail, spaces);
    }
  }

  lemma {:induction false} LeadingIsUniform(b: Text, spaces: bool)
    ensures forall i :: 0 <= i < Leading(b, spaces) ==> White(b[i]) == spaces
    decreases |b|
  {
    if b != [] && White(b[0]) == spaces {
      LeadingIsUniform(b[1..], spaces);
      forall i | 0 <= i < Leading(b, spaces) ensures White(b[i]) == spaces {
        if i > 0 {
          assert b[i] == b[1..][i - 1];
        }
      }
    }
  }

  /** Splitting at white space: white space alone has no words; a word behind white space, and before
      the end or more white space, comes first, and the words behind it follow. */
  lemma WordsSplit(before: Text, w: Text, tail: Text)
    requires Spaces(before)
    ensures Words(before) == []
    ensures Word(w) && Parted(tail) ==> Words(before + w + tail) == [w] + Words(tail)
  {
    LeadingSpan(before, [], true);
    assert before + [] == before;
    if Word(w) && Parted(tail) {
      var b := before + (w + tail);
      LeadingSpan(before, w + tail, true);
      LeadingSpan(w, tail, false);
      assert b == before + w + tail && b[|before|..] == w + tail;
      assert (w + tail)[..|w|] == w && (w + tail)[|w|..] == tail;
    }
  }

  /** The line says a word first: it is white space, then the word, then the end or white space. */
  predicate Says(line: Text, word: Text) {
    exists k :: 0 <= k <= |line| - |word| && Spaces(line[..k]) && line[k..k + |word|] == word && Parted(line[k + |word|..])
  }

  lemma WordsBegin(line: Text)
    requires Words(line) != []
    ensures
      var s := line[Leading(line, true)..];
      s != [] && Words(line)[0] == s[..Leading(s, false)]
  {
    hide Leading;
  }

  /** Behind the word at the front of `s` there is nothing, or white space. */
  lemma WordIsParted(s: Text)
    ensures Parted(s[Leading(s, false)..])
  {
    hide Leading;
  }

  lemma FrontIsWhite(s: Text)
    ensures Spaces(s[..Leading(s, true)])
  {
    hide Leading;
    LeadingIsUniform(s, true);
  }

  lemma SliceBehind(s: Text, k: nat, n: nat)
    requires k + n <= |s|
    ensures s[k..][..n] == s[k..k + n] && s[k..][n..] == s[k + n..]
  {
  }

  lemma SaidAt(line: Text, k: nat, word: Text)
    requires k + |word| <= |line| && Spaces(line[..k]) && line[k..k + |word|] == word && Parted(line[k + |word|..])
    ensures Says(line, word)
  {
    hide Spaces, Parted;
  }

  lemma FirstWordIsSaid(line: Text)
    requires Words(line) != []
    ensures Says(line, Words(line)[0])
  {
    hide Leading, Words, Parted, Spaces, Says;
    var k := Leading(line, true);
    var s := line[k..];
    var n := Leading(s, false);
    WordsBegin(line);
    FrontIsWhite(line);
    WordIsParted(s);
    SliceBehind(line, k, n);
    SaidAt(line, k, s[..n]);
  }

  lemma SaidWordIsFirst(line: Text, word: Text)
    requires Word(word) && Says(line, word)
    ensures Words(line) != [] && Words(line)[0] == word
  {
    hide Words, Spaces, Word, Parted;
    var k :| 0 <= k <= |line| - |word| && Spaces(line[..k]) && line[k..k + |word|] == word && Parted(line[k + |word|..]);
    WordsSplit(line[..k], word, line[k + |word|..]);
    assert line == line[..k] + word + line[k + |word|..];
  }

  lemma SaysMeansFirst(line: Text, word: Text)
    requires Word(word)
    ensures Says(line, word) <==> Words(line) != [] && Words(line)[0] == word
  {
    hide Says, Words;
    if Words(line) != [] {
      FirstWordIsSaid(line);
    }
    if Says(line, word) {
      SaidWordIsFirst(line, word);
    }
  }

  const BEGIN_WORD: Text := [66, 69, 71, 73, 78]

  /** A line is a `BEGIN` line if and only if, behind any white space, it says these five letters, and
      the line ends there or goes on with white space. */
  lemma BeginLine(line: Text)
    ensures IsBegin(line) <==> Says(line, BEGIN_WORD)
  {
    hide Says;
    assert Ascii("BEGIN") == BEGIN_WORD;
    SaysMeansFirst(line, BEGIN_WORD);
  }

  /** One line: it ends with the first newline in it. */
  predicate OneLine(b: seq<byte>) {
    b != [] && b[|b| - 1] == 10 && 10 !in b[..|b| - 1]
  }

  /** For any lines that do not say `BEGIN`, a line that does, and any data behind it, the conversation
      has one response per line and none for `BEGIN`, and hands over exactly the data. */
  lemma ConversationIsHandedOver(lines: seq<seq<byte>>, begin: seq<byte>, data: seq<byte>)
    requires forall i :: 0 <= i < |lines| ==> OneLine(lines[i]) && !Says(lines[i], BEGIN_WORD)
    requires OneLine(begin) && Says(begin, BEGIN_WORD)
    ensures TalkOf(Join(lines) + begin + data) == Talk(Responses(lines), Some(data))
  {
    hide Says, IsBegin;
    forall i | 0 <= i < |lines| ensures IsLine(lines[i]) && !IsBegin(lines[i]) {
      BeginLine(lines[i]);
    }
    BeginLine(begin);
    ConversationHandsOver(lines, begin, data);
  }

  lemma BeginIsALine()
    ensures OneLine(Ascii("BEGIN\r\n")) && Says(Ascii("BEGIN\r\n"), BEGIN_WORD)
  {
    var b: Text := [66, 69, 71, 73, 78, 13, 10];
    assert Ascii("BEGIN\r\n") == b;
    assert b[..0] == [] && b[0..5] == BEGIN_WORD && b[5..] == [13, 10];
  }

  /** The usual last line: whatever follows it is the binary stream. */
  lemma BeginStartsTheStream(data: seq<byte>)
    ensures TalkOf(Ascii("BEGIN\r\n") + data) == Talk([], Some(data))
  {
    hide Says, Ascii;
    BeginIsALine();
    assert Join([]) + Ascii("BEGIN\r\n") == Ascii("BEGIN\r\n");
    ConversationIsHandedOver([], Ascii("BEGIN\r\n"), data);
    assert Responses([]) == [];
  }

  /** The answers to `AUTH`, however the words are spaced: with the mechanism `EXTERNAL` and an identity
      it is accepted, whatever the identity; without an identity the client is asked for it; another
      mechanism, or none, is rejected. */
  lemma AuthLines(before: Text, gap: Text, word: Text, more: Text, tail: Text)
    requires Spaces(before) && Spaces(gap) && gap != [] && Spaces(more) && more != [] && Word(word) && Parted(tail)
    ensures Respond(before + Ascii("AUTH") + gap) == Ascii("REJECTED EXTERNAL\r\n")
    ensures
      word != Ascii("EXTERNAL") ==>
        Respond(before + Ascii("AUTH") + (gap + word + tail)) == Ascii("REJECTED EXTERNAL\r\n")
    ensures Respond(before + Ascii("AUTH") + (gap + Ascii("EXTERNAL") + more)) == Ascii("DATA\r\n")
    ensures
      Respond(before + Ascii("AUTH") + (gap + Ascii("EXTERNAL") + (more + word + tail)))
      == Ascii("OK 10000000000000000000000000000000\r\n")
  {
    CommandsAreWords();
    hide Words, Ascii, Spaces, Word, Parted, Respond;
    var external := Ascii("EXTERNAL");
    WordsSplit(gap, [], []);
    WordsSplit(more, [], []);
    GapParts(gap, []);
    GapParts(more, []);
    AuthResponse(before, gap);
    SecondWord(gap, word, tail);
    AuthResponse(before, gap + word + tail);
    SecondWord(gap, external, more);
    AuthResponse(before, gap + external + more);
    SecondWord(more, word, tail);
    SecondWord(gap, external, more + word + tail);
    AuthResponse(before, gap + external + (more + word + tail));
  }

  lemma AuthResponse(before: Text, rest: Text)
    requires Spaces(before) && Parted(rest)
    ensures
      Respond(before + Ascii("AUTH") + rest)
      == if Words(rest) == [] || Words(rest)[0] != Ascii("EXTERNAL") then REJECTED
         else if |Words(rest)| == 1 then DATA_CHALLENGE else OK
  {
    CommandsAreWords();
    hide Words, Ascii, Spaces, Word, Parted;
    WordsSplit(before, Ascii("AUTH"), rest);
  }

  lemma SecondWord(gap: Text, word: Text, tail: Text)
    requires Spaces(gap) && gap != [] && Word(word) && Parted(tail)
    ensures Parted(gap + word + tail) && Words(gap + word + tail) == [word] + Words(tail)
  {
    hide Words, Spaces, Word, Parted;
    WordsSplit(gap, word, tail);
    GapParts(gap, word + tail);
    assert gap + (word + tail) == gap + word + tail;
  }

  lemma GapParts(gap: Text, rest: Text)
    requires Spaces(gap) && gap != []
    ensures Parted(gap) && Parted(gap + rest)
  {
  }

  lemma CommandsAreWords()
    ensures Word(Ascii("AUTH")) && Word(Ascii("EXTERNAL")) && Word(Ascii("DATA")) && Word(Ascii("NEGOTIATE_UNIX_FD"))
  {
  }

  /** The answers to the other lines: `DATA` is accepted, the passing of descriptors agreed to, and any
      other word, or none, rejected. */
  lemma OtherLines(before: Text, word: Text, tail: Text)
    requires Spaces(before) && Word(word) && Parted(tail)
    ensures Respond(before) == Ascii("REJECTED EXTERNAL\r\n")
    ensures Respond(before + Ascii("DATA") + tail) == Ascii("OK 10000000000000000000000000000000\r\n")
    ensures Respond(before + Ascii("NEGOTIATE_UNIX_FD") + tail) == Ascii("AGREE_UNIX_FD\r\n")
    ensures
      word != Ascii("AUTH") && word != Ascii("DATA") && word != Ascii("NEGOTIATE_UNIX_FD") ==>
        Respond(before + word + tail) == Ascii("REJECTED EXTERNAL\r\n")
  {
    CommandsAreWords();
    assert |Ascii("AUTH")| == 4 && |Ascii("DATA")| == 4 && Ascii("AUTH")[0] == 65 && Ascii("DATA")[0] == 68;
    assert |Ascii("NEGOTIATE_UNIX_FD")| == 17;
    hide Words, Ascii, Spaces, Word, Parted;
    WordsSplit(before, [], []);
    WordsSplit(before, word, tail);
    WordsSplit(before, Ascii("DATA"), tail);
    WordsSplit(before, Ascii("NEGOTIATE_UNIX_FD"), tail);
  }

  function AuthLine(identity: Text): Text {
    Ascii("AUTH") + (Ascii(" ") + Ascii("EXTERNAL") + (Ascii(" ") + identity + Ascii("\r\n")))
  }

  const NEGOTIATE_LINE := Ascii("NEGOTIATE_UNIX_FD") + Ascii("\r\n")

  lemma EndsInLine(front: Text, text: Text)
    requires 10 !in front && text == Ascii("\r\n")
    ensures OneLine(front + text)
  {
    assert (front + text)[..|front + text| - 1] == front + [13];
  }

  lemma AuthLineIsOne(identity: Text)
    requires Word(identity)
    ensures OneLine(AuthLine(identity))
  {
    hide OneLine;
    var front := Ascii("AUTH") + (Ascii(" ") + Ascii("EXTERNAL") + (Ascii(" ") + identity));
    NoNewlines(identity);
    assert 10 !in front;
    EndsInLine(front, Ascii("\r\n"));
    hide Ascii;
    assert AuthLine(identity) == front + Ascii("\r\n");
  }

  lemma NoNewlines(identity: Text)
    requires Word(identity)
    ensures 10 !in identity && 10 !in Ascii("AUTH") && 10 !in Ascii(" ") && 10 !in Ascii("EXTERNAL")
  {
  }

  lemma AuthLineAnswered(identity: Text)
    requires Word(identity)
    ensures !Says(AuthLine(identity), BEGIN_WORD)
    ensures Respond(AuthLine(identity)) == Ascii("OK 10000000000000000000000000000000\r\n")
  {
    GapsPart();
    hide Says, Words, Respond, Ascii, Word, Spaces, Parted;
    var tail := Ascii(" ") + Ascii("EXTERNAL") + (Ascii(" ") + identity + Ascii("\r\n"));
    assert [] + Ascii("AUTH") == Ascii("AUTH");
    GapParts(Ascii(" "), Ascii("EXTERNAL") + (Ascii(" ") + identity + Ascii("\r\n")));
    assert Ascii(" ") + (Ascii("EXTERNAL") + (Ascii(" ") + identity + Ascii("\r\n"))) == tail;
    AuthLines([], Ascii(" "), identity, Ascii(" "), Ascii("\r\n"));
    WordsSplit([], Ascii("AUTH"), tail);
    SaysMeansFirst(AuthLine(identity), BEGIN_WORD);
  }

  lemma GapsPart()
    ensures Spaces(Ascii(" ")) && Ascii(" ") != [] && Parted(Ascii("\r\n")) && Word(Ascii("AUTH")) && Word(BEGIN_WORD) && Spaces([])
    ensures Ascii("AUTH") != BEGIN_WORD && Ascii("NEGOTIATE_UNIX_FD") != BEGIN_WORD
  {
    assert |Ascii("AUTH")| == 4 && |Ascii("NEGOTIATE_UNIX_FD")| == 17;
  }

  lemma NegotiateLineAnswered()
    ensures OneLine(NEGOTIATE_LINE) && !Says(NEGOTIATE_LINE, BEGIN_WORD)
    ensures Respond(NEGOTIATE_LINE) == Ascii("AGREE_UNIX_FD\r\n")
  {
    EndsInLine(Ascii("NEGOTIATE_UNIX_FD"), Ascii("\r\n"));
    GapsPart();
    CommandsAreWords();
    hide Says, Words, Respond, OneLine, Ascii, Word, Spaces, Parted;
    var word, tail := Ascii("NEGOTIATE_UNIX_FD"), Ascii("\r\n");
    assert [] + word == word;
    OtherLines([], word, tail);
    WordsSplit([], word, tail);
    SaysMeansFirst(NEGOTIATE_LINE, BEGIN_WORD);
  }

  /** A whole conversation as clients have it, from its first command on, with any identity. */
  lemma UsualConversation(identity: Text, data: seq<byte>)
    requires Word(identity)
    ensures
      TalkOf(Ascii("AUTH EXTERNAL ") + identity + Ascii("\r\nNEGOTIATE_UNIX_FD\r\nBEGIN\r\n") + data)
      == Talk([Ascii("OK 10000000000000000000000000000000\r\n"), Ascii("AGREE_UNIX_FD\r\n")], Some(data))
  {
    hide Says, Respond, OneLine, Ascii, Word, TalkOf;
    AuthLineIsOne(identity);
    AuthLineAnswered(identity);
    NegotiateLineAnswered();
    BeginIsALine();
    var lines := [AuthLine(identity), NEGOTIATE_LINE];
    ConversationIsHandedOver(lines, Ascii("BEGIN\r\n"), data);
    ConversationBytes(identity);
    assert lines[1..] == [NEGOTIATE_LINE] && [NEGOTIATE_LINE][1..] == [];
    assert Join(lines) == AuthLine(identity) + (NEGOTIATE_LINE + Join([]));
    assert Join(lines) == AuthLine(identity) + NEGOTIATE_LINE;
    assert Responses(lines) == [Respond(lines[0]), Respond(lines[1])];
  }

  lemma ConversationBytes(identity: Text)
    ensures
      AuthLine(identity) + NEGOTIATE_LINE + Ascii("BEGIN\r\n")
      == Ascii("AUTH EXTERNAL ") + identity + Ascii("\r\nNEGOTIATE_UNIX_FD\r\nBEGIN\r\n")
  {
    hide Ascii;
    AsciiJoins("AUTH", " ");
    AsciiJoins("AUTH" + " ", "EXTERNAL");
    AsciiJoins("AUTH" + " " + "EXTERNAL", " ");
    assert "AUTH" + " " + "EXTERNAL" + " " == "AUTH EXTERNAL ";
    AsciiJoins("\r\n", "NEGOTIATE_UNIX_FD");
    AsciiJoins("\r\n" + "NEGOTIATE_UNIX_FD", "\r\n");
    AsciiJoins("\r\n" + "NEGOTIATE_UNIX_FD" + "\r\n", "BEGIN\r\n");
    assert "\r\n" + "NEGOTIATE_UNIX_FD" + "\r\n" + "BEGIN\r\n" == "\r\nNEGOTIATE_UNIX_FD\r\nBEGIN\r\n";
  }
}
