/**
 * What the game makes of the decision process's reply (the tail of
 * `callPythonAI` and the four comparisons of the polling step in
 * CppGame/src/main.cpp).
 */
module Reply {
  import opened Collision

  /** What reading the process's standard output gives: no pipe at all, or the captured text. */
  datatype PipeOutput = PipeFailed | Captured(text: string)

  /** The opponent's move as the four string comparisons select it; `Stay` for any other reply. */
  datatype Decision = Stay | MoveLeft | MoveRight | MoveUp | MoveDown

  /** `s` with every occurrence of `c` taken out, the rest in order (erase(remove(...)) on a string). */
  function Erase(s: string, c: char): string
  {
    if s == [] then []
    else if s[0] == c then Erase(s[1..], c)
    else [s[0]] + Erase(s[1..], c)
  }

  /** Both erase/remove passes: first every '\n', then every '\r'. */
  function TrimLineEnds(s: string): string
  {
    Erase(Erase(s, '\n'), '\r')
  }

  /** The string `callPythonAI` returns: "stay" when the pipe could not be opened. */
  function ReplyText(p: PipeOutput): string
  {
    match p
    case PipeFailed => "stay"
    case Captured(t) => TrimLineEnds(t)
  }

  /** Which of the four exact tokens the reply is, if any. */
  function ParseDecision(action: string): Decision
  {
    if action == "left" then MoveLeft
    else if action == "right" then MoveRight
    else if action == "up" then MoveUp
    else if action == "down" then MoveDown
    else Stay
  }

  /** The opponent rectangle after moving `speed` units as `d` says (y grows downwards). */
  function Displace(e: Rect, d: Decision, speed: real): Rect
  {
    match d
    case Stay => e
    case MoveLeft => e.(x := e.x - speed)
    case MoveRight => e.(x := e.x + speed)
    case MoveUp => e.(y := e.y - speed)
    case MoveDown => e.(y := e.y + speed)
  }

  // ---- Erase -------------------------------------------------------------

  /** Erasing distributes over concatenation: the kept characters stay in their order. */
  lemma {:induction false} EraseAppend(s: string, t: string, c: char)
    ensures Erase(s + t, c) == Erase(s, c) + Erase(t, c)
  {
    if s == [] {
      assert s + t == t;
    } else {
      assert (s + t)[1..] == s[1..] + t;
      EraseAppend(s[1..], t, c);
    }
  }

  /** Erasing takes out exactly the occurrences of `c` and keeps every other character. */
  lemma {:induction false} EraseContents(s: string, c: char)
    ensures c !in Erase(s, c)
    ensures multiset(Erase(s, c)) == multiset(s)[c := 0]
  {
    if s != [] {
      EraseContents(s[1..], c);
      assert s == [s[0]] + s[1..];
      assert multiset(s) == multiset{s[0]} + multiset(s[1..]);
    }
  }

  /** A string without `c` is left as it is. */
  lemma {:induction false} EraseAbsent(s: string, c: char)
    requires c !in s
    ensures Erase(s, c) == s
  {
    if s != [] {
      EraseAbsent(s[1..], c);
    }
  }

  /** Erasing never brings a character in. */
  lemma {:induction false} EraseKeepsAbsent(s: string, c: char, d: char)
    requires d !in s
    ensures d !in Erase(s, c)
  {
    if s != [] {
      EraseKeepsAbsent(s[1..], c, d);
    }
  }

  // ---- Trimming ----------------------------------------------------------

  /** After trimming no line-ending character is left, and every other character is kept. */
  lemma TrimRemovesLineEnds(s: string)
    ensures '\n' !in TrimLineEnds(s) && '\r' !in TrimLineEnds(s)
    ensures multiset(TrimLineEnds(s)) == multiset(s)['\n' := 0]['\r' := 0]
  {
    EraseContents(s, '\n');
    EraseContents(Erase(s, '\n'), '\r');
    EraseKeepsAbsent(Erase(s, '\n'), '\r', '\n');
  }

  /** Trimming keeps the order of what it keeps: it works piece by piece. */
  lemma TrimAppend(s: string, t: string)
    ensures TrimLineEnds(s + t) == TrimLineEnds(s) + TrimLineEnds(t)
  {
    EraseAppend(s, t, '\n');
    EraseAppend(Erase(s, '\n'), Erase(t, '\n'), '\r');
  }

  /** A string without line-ending characters is its own trim. */
  lemma TrimNoLineEnds(s: string)
    requires '\n' !in s && '\r' !in s
    ensures TrimLineEnds(s) == s
  {
    EraseAbsent(s, '\n');
    EraseAbsent(s, '\r');
  }

  /** Trimming twice is trimming once. */
  lemma TrimIdempotent(s: string)
    ensures TrimLineEnds(TrimLineEnds(s)) == TrimLineEnds(s)
  {
    TrimRemovesLineEnds(s);
    TrimNoLineEnds(TrimLineEnds(s));
  }

  /** Line endings are removed anywhere, not only at the end. */
  lemma TrimInsideText()
    ensures TrimLineEnds("le\r\nft\n") == "left"
  {
    TrimNoLineEnds("left");
    TrimAppend("le\r\n", "ft\n");
    TrimAppend("le", "\r\n");
    TrimAppend("ft", "\n");
    TrimNoLineEnds("le");
    TrimNoLineEnds("ft");
  }

  // ---- In place ----------------------------------------------------------

  /**
   * `erase(remove(begin, end, c), end)` on the first `n` characters of a
   * buffer: `std::remove` compacts the kept characters to the front and the
   * returned length is where `erase` cuts.
   */
  method EraseRemove(buf: array<char>, n: nat, c: char) returns (len: nat)
    requires n <= buf.Length
    modifies buf
    ensures len <= n
    ensures buf[..len] == Erase(old(buf[..n]), c)
  {
    ghost var s := buf[..n];
    len := 0;
    var i := 0;
    while i < n
      invariant len <= i <= n
      invariant forall j :: i <= j < n ==> buf[j] == s[j]
      invariant buf[..len] == Erase(s[..i], c)
    {
      ghost var kept := buf[..len];
      var ch := buf[i];
      EraseSnoc(s, i, c);
      if ch != c {
        buf[len] := ch;
        assert buf[..len + 1] == kept + [ch];
        len := len + 1;
      } else {
        assert buf[..len] == kept;
      }
      i := i + 1;
    }
    assert s[..n] == s;
  }

  /** Erasing from a longer prefix adds the next character unless it is `c`. */
  lemma EraseSnoc(s: string, i: nat, c: char)
    requires i < |s|
    ensures Erase(s[..i + 1], c) == Erase(s[..i], c) + (if s[i] == c then [] else [s[i]])
  {
    assert s[..i + 1] == s[..i] + [s[i]];
    EraseAppend(s[..i], [s[i]], c);
  }

  /** The two passes of `callPythonAI`, in place on a buffer holding `n` captured characters. */
  method TrimInPlace(buf: array<char>, n: nat) returns (len: nat)
    requires n <= buf.Length
    modifies buf
    ensures len <= n
    ensures buf[..len] == TrimLineEnds(old(buf[..n]))
  {
    var m := EraseRemove(buf, n, '\n');
    len := EraseRemove(buf, m, '\r');
  }

  // ---- Decisions ---------------------------------------------------------

  /** A failed pipe yields "stay", which moves nobody. */
  lemma PipeFailureIsStay()
    ensures ReplyText(PipeFailed) == "stay"
    ensures ParseDecision(ReplyText(PipeFailed)) == Stay
  {
  }

  /** Only the four exact tokens move the opponent; anything else leaves it where it is. */
  lemma OnlyExactTokensMove(action: string, e: Rect, speed: real)
    requires action != "left" && action != "right" && action != "up" && action != "down"
    ensures Displace(e, ParseDecision(action), speed) == e
  {
  }

  /** A recognised token moves the opponent by exactly `speed` along one axis, and keeps its size. */
  lemma TokenMovesOneAxis(action: string, e: Rect, speed: real)
    requires action == "left" || action == "right" || action == "up" || action == "down"
    ensures var r := Displace(e, ParseDecision(action), speed);
      r.w == e.w && r.h == e.h &&
      ((r.y == e.y && (r.x == e.x - speed || r.x == e.x + speed)) ||
       (r.x == e.x && (r.y == e.y - speed || r.y == e.y + speed)))
  {
  }

  /** A reply of "left" followed by a line ending is read as a move left. */
  lemma LeftWithNewline()
    ensures ParseDecision(ReplyText(Captured("left\n"))) == MoveLeft
  {
    TrimAppend("left", "\n");
    TrimNoLineEnds("left");
  }
}
