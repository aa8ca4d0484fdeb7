/**
 * The console work log: a session with guarded setters, the interactive
 * loop that adds sessions, and the plain-text file of
 * `date name hours` lines it saves and loads.
 *
 * Console input is a sequence of rounds given in advance. Printing a
 * number (`operator<<` on a double) and reading one back (`operator>>`)
 * are the parameters `show` and `read`; file access is an option (no
 * contents when the file cannot be opened).
 */
module WorkClock {
  import W = Wrappers

  /** What a session holds. A `std::vector` stores copies, so a list of sessions is a sequence of these values. */
  datatype Entry = Entry(date: string, name: string, hours: real)

  /** The only hours `setHours` accepts. */
  predicate ValidHours(h: real) {
    0.0 < h <= 24.0
  }

  class WorkSession {
    var hours: real
    var name: string
    var date: string

    /** A default-constructed session: empty strings and hours left indeterminate, here the value `unset`. */
    constructor(unset: real)
      ensures hours == unset && name == "" && date == ""
    {
      hours := unset;
      name := "";
      date := "";
    }

    method SetHours(h: real)
      modifies this`hours
      ensures hours == if ValidHours(h) then h else old(hours)
    {
      if h <= 24.0 && h > 0.0 {
        hours := h;
      }
    }

    method SetName(n: string)
      modifies this`name
      ensures name == if n == "" then old(name) else n
    {
      if n != "" {
        name := n;
      }
    }

    method SetDate(d: string)
      modifies this`date
      ensures date == if d == "" then old(date) else d
    {
      if d != "" {
        date := d;
      }
    }

    /** The copy `push_back` stores. */
    function Snapshot(): Entry
      reads this
    {
      Entry(date, name, hours)
    }
  }

  /** A fresh session after `setDate`, `setName` and `setHours`. */
  function Made(date: string, name: string, h: real, unset: real): (e: Entry)
    ensures e.date == date && e.name == name
    ensures ValidHours(h) ==> e.hours == h
    ensures !ValidHours(h) ==> e.hours == unset
  {
    Entry(date, name, if ValidHours(h) then h else unset)
  }

  method NewSession(date: string, name: string, h: real, unset: real) returns (e: Entry)
    ensures e == Made(date, name, h, unset)
  {
    var s := new WorkSession(unset);
    s.SetDate(date);
    s.SetName(name);
    s.SetHours(h);
    e := s.Snapshot();
  }

  // ---------- Adding sessions at the console ----------

  /**
   * One pass of `addSession`'s loop: the date line, the project line, the
   * answers to the hours prompt (a number, or None when extraction fails),
   * and the answer to "add another".
   */
  datatype Round = Round(date: string, project: string, attempts: seq<W.Option<real>>, choice: char)

  predicate Accepted(a: W.Option<real>) {
    a.Some? && ValidHours(a.value)
  }

  predicate HasAccepted(attempts: seq<W.Option<real>>) {
    exists i :: 0 <= i < |attempts| && Accepted(attempts[i])
  }

  /** The answer that ends the hours prompt: the first accepted one. */
  function FirstAccepted(attempts: seq<W.Option<real>>): (k: nat)
    requires HasAccepted(attempts)
    ensures k < |attempts| && Accepted(attempts[k])
    ensures forall j :: 0 <= j < k ==> !Accepted(attempts[j])
    decreases |attempts|
  {
    if Accepted(attempts[0]) then 0
    else
      var i :| 0 <= i < |attempts| && Accepted(attempts[i]);
      assert Accepted(attempts[1..][i - 1]);
      1 + FirstAccepted(attempts[1..])
  }

  /** The hours prompt: asks again after every failed or out-of-range answer. */
  method ReadHours(attempts: seq<W.Option<real>>) returns (h: real, tries: nat)
    requires HasAccepted(attempts)
    ensures tries == FirstAccepted(attempts) + 1
    ensures h == attempts[FirstAccepted(attempts)].value && ValidHours(h)
  {
    var isHoursOk := false;
    tries := 0;
    h := 0.0;
    while !isHoursOk
      invariant 0 <= tries <= FirstAccepted(attempts) + 1
      invariant isHoursOk <==> tries == FirstAccepted(attempts) + 1
      invariant isHoursOk ==> h == attempts[FirstAccepted(attempts)].value
      decreases FirstAccepted(attempts) + 1 - tries
    {
      var answer := attempts[tries];
      if answer.None? || answer.value <= 0.0 || answer.value > 24.0 {
        tries := tries + 1;
      } else {
        h := answer.value;
        tries := tries + 1;
        isHoursOk := true;
      }
    }
  }

  predicate Stops(choice: char) {
    choice == 'n' || choice == 'N'
  }

  predicate HasStop(rounds: seq<Round>) {
    exists k :: 0 <= k < |rounds| && Stops(rounds[k].choice)
  }

  /** The round after which the loop ends: the first one answered 'n' or 'N'. */
  function LastRound(rounds: seq<Round>): (k: nat)
    requires HasStop(rounds)
    ensures k < |rounds| && Stops(rounds[k].choice)
    ensures forall j :: 0 <= j < k ==> !Stops(rounds[j].choice)
    decreases |rounds|
  {
    if Stops(rounds[0].choice) then 0
    else
      var i :| 0 <= i < |rounds| && Stops(rounds[i].choice);
      assert Stops(rounds[1..][i - 1].choice);
      1 + LastRound(rounds[1..])
  }

  /** The sessions a run of rounds adds, one per round. */
  function Added(rounds: seq<Round>): (es: seq<Entry>)
    requires forall i :: 0 <= i < |rounds| ==> HasAccepted(rounds[i].attempts)
    decreases |rounds|
  {
    if rounds == [] then []
    else
      var r := rounds[|rounds| - 1];
      Added(rounds[..|rounds| - 1]) + [Entry(r.date, r.project, r.attempts[FirstAccepted(r.attempts)].value)]
  }

  /** Every session added at the console has the hours of its first accepted answer, so valid hours. */
  lemma {:induction false} AddedSessions(rounds: seq<Round>)
    requires forall i :: 0 <= i < |rounds| ==> HasAccepted(rounds[i].attempts)
    ensures |Added(rounds)| == |rounds|
    ensures forall i :: 0 <= i < |rounds| ==>
              Added(rounds)[i].date == rounds[i].date && Added(rounds)[i].name == rounds[i].project
              && ValidHours(Added(rounds)[i].hours)
    decreases |rounds|
  {
    if rounds != [] {
      AddedSessions(rounds[..|rounds| - 1]);
    }
  }

  /** The `std::vector` that `main` keeps and `addSession` appends to. */
  class WorkLog {
    var sessions: seq<Entry>

    constructor(initial: seq<Entry>)
      ensures sessions == initial
    {
      sessions := initial;
    }

    /** `addSession`: one session per round until a round is answered 'n' or 'N'. */
    method AddSession(rounds: seq<Round>) returns (used: nat)
      requires HasStop(rounds)
      requires forall i :: 0 <= i <= LastRound(rounds) ==> HasAccepted(rounds[i].attempts)
      modifies this
      ensures used == LastRound(rounds) + 1
      ensures sessions == old(sessions) + Added(rounds[..used])
    {
      var adding := true;
      used := 0;
      while adding
        invariant used <= LastRound(rounds) + 1
        invariant adding <==> used <= LastRound(rounds)
        invariant sessions == old(sessions) + Added(rounds[..used])
        decreases LastRound(rounds) + 1 - used
      {
        var round := rounds[used];
        var hours, _ := ReadHours(round.attempts);
        var e := NewSession(round.date, round.project, hours, 0.0);
        assert rounds[..used + 1][..used] == rounds[..used];
        sessions := sessions + [e];
        if round.choice == 'n' || round.choice == 'N' {
          adding := false;
        }
        used := used + 1;
      }
    }
  }

  // ---------- The file ----------

  /** The characters `operator>>` skips: space, tab, newline, vertical tab, form feed and carriage return. */
  predicate IsSpace(c: char) {
    c == ' ' || '\t' <= c <= '\r'
  }

  predicate NoSpace(s: string) {
    forall i :: 0 <= i < |s| ==> !IsSpace(s[i])
  }

  /** The length of the word s starts with. */
  function WordLength(s: string): (n: nat)
    ensures n <= |s| && NoSpace(s[..n])
    ensures n < |s| ==> IsSpace(s[n])
    decreases |s|
  {
    if s == [] || IsSpace(s[0]) then 0 else 1 + WordLength(s[1..])
  }

  /** The words `operator>>` extracts one after another. */
  function Tokens(s: string): seq<string>
    decreases |s|
  {
    if s == [] then []
    else if IsSpace(s[0]) then Tokens(s[1..])
    else
      var n := WordLength(s);
      [s[..n]] + Tokens(s[n..])
  }

  /** A word followed by a separator is one token. */
  lemma {:induction false} WordThenSpace(w: string, c: char, rest: string)
    requires w != [] && NoSpace(w) && IsSpace(c)
    ensures Tokens(w + [c] + rest) == [w] + Tokens(rest)
  {
    WordLengthOfWord(w, c, rest);
    var s := w + [c] + rest;
    assert s[..|w|] == w;
    assert s[|w|..] == [c] + rest;
    assert ([c] + rest)[1..] == rest;
  }

  lemma {:induction false} WordLengthOfWord(w: string, c: char, rest: string)
    requires NoSpace(w) && IsSpace(c)
    ensures WordLength(w + [c] + rest) == |w|
    decreases |w|
  {
    if w == [] {
      assert (w + [c] + rest)[0] == c;
    } else {
      WordLengthOfWord(w[1..], c, rest);
      assert (w + [c] + rest)[1..] == w[1..] + [c] + rest;
    }
  }

  /** Text ending in a separator tokenizes apart from what follows it. */
  lemma {:induction false} TokensAppend(a: string, b: string)
    requires a == [] || IsSpace(a[|a| - 1])
    ensures Tokens(a + b) == Tokens(a) + Tokens(b)
    decreases |a|, 1
  {
    if a == [] {
      assert a + b == b;
    } else if IsSpace(a[0]) {
      TokensAppend(a[1..], b);
      assert (a + b)[1..] == a[1..] + b;
    } else {
      TokensAppendWord(a, b);
    }
  }

  /** The case of TokensAppend where a starts with a word. */
  lemma {:induction false} TokensAppendWord(a: string, b: string)
    requires a != [] && !IsSpace(a[0]) && IsSpace(a[|a| - 1])
    ensures Tokens(a + b) == Tokens(a) + Tokens(b)
    decreases |a|, 0
  {
    var n := WordLength(a);
    assert n < |a|;
    WordLengthPrefix(a, b, n);
    assert (a + b)[..n] == a[..n];
    assert (a + b)[n..] == a[n..] + b;
    assert Tokens(a + b) == [a[..n]] + Tokens(a[n..] + b);
    assert Tokens(a) == [a[..n]] + Tokens(a[n..]);
    TokensAppend(a[n..], b);
  }

  lemma {:induction false} WordLengthPrefix(a: string, b: string, n: nat)
    requires n == WordLength(a) && n < |a|
    ensures WordLength(a + b) == n
    decreases |a|
  {
    if n > 0 {
      WordLengthPrefix(a[1..], b, n - 1);
      assert (a + b)[1..] == a[1..] + b;
    }
  }

  /** One saved line: date, name and hours separated by spaces. */
  function Line(e: Entry, show: real -> string): string {
    e.date + " " + e.name + " " + show(e.hours) + "\n"
  }

  /** The whole file `saveToFile` writes: one line per session, in order. */
  function Serialize(list: seq<Entry>, show: real -> string): string
    decreases |list|
  {
    if list == [] then "" else Line(list[0], show) + Serialize(list[1..], show)
  }

  /** Saving a list writes its parts one after another. */
  lemma {:induction false} SerializeAppend(a: seq<Entry>, b: seq<Entry>, show: real -> string)
    ensures Serialize(a + b, show) == Serialize(a, show) + Serialize(b, show)
    decreases |a|
  {
    if a == [] {
      assert a + b == b;
    } else {
      SerializeAppend(a[1..], b, show);
      assert (a + b)[1..] == a[1..] + b;
    }
  }

  /** `saveToFile`: the new contents of the file, or None when it cannot be opened. */
  method SaveToFile(list: seq<Entry>, canOpen: bool, show: real -> string) returns (written: W.Option<string>)
    ensures written == if canOpen then W.Some(Serialize(list, show)) else W.None
  {
    if !canOpen {
      return W.None;
    }
    var text := "";
    for i := 0 to |list|
      invariant text + Serialize(list[i..], show) == Serialize(list, show)
    {
      assert list[i..][1..] == list[i + 1..];
      text := text + Line(list[i], show);
    }
    assert list[|list|..] == [];
    assert Serialize(list[|list|..], show) == "";
    assert text + "" == text;
    assert text == Serialize(list, show);
    return W.Some(text);
  }

  /**
   * Sessions from tokens, three at a time, until a triple is missing or its
   * hours are not a number. Out-of-range hours leave the session's hours
   * indeterminate (`unset`).
   */
  function Parse(tokens: seq<string>, read: string -> W.Option<real>, unset: real): seq<Entry>
    decreases |tokens|
  {
    if |tokens| >= 3 && read(tokens[2]).Some? then
      [Made(tokens[0], tokens[1], read(tokens[2]).value, unset)] + Parse(tokens[3..], read, unset)
    else []
  }

  /**
   * The i-th session is built from the i-th triple of tokens, whose third
   * reads as a number, and reading stops at the first triple that is
   * missing or whose third does not.
   */
  lemma {:induction false} ParseTriples(tokens: seq<string>, read: string -> W.Option<real>, unset: real)
    ensures var es := Parse(tokens, read, unset);
      3 * |es| <= |tokens|
      && (forall i :: 0 <= i < |es| ==>
            read(tokens[3 * i + 2]).Some? && es[i] == Made(tokens[3 * i], tokens[3 * i + 1], read(tokens[3 * i + 2]).value, unset))
      && (3 * |es| + 3 <= |tokens| ==> read(tokens[3 * |es| + 2]).None?)
  {
    ParseStops(tokens, read, unset);
    forall i | 0 <= i < |Parse(tokens, read, unset)| {
      ParseEntry(tokens, read, unset, i);
    }
  }

  /** The i-th session comes from the i-th triple. */
  lemma {:induction false} ParseEntry(tokens: seq<string>, read: string -> W.Option<real>, unset: real, i: nat)
    requires i < |Parse(tokens, read, unset)|
    ensures 3 * i + 2 < |tokens| && read(tokens[3 * i + 2]).Some?
    ensures Parse(tokens, read, unset)[i] == Made(tokens[3 * i], tokens[3 * i + 1], read(tokens[3 * i + 2]).value, unset)
    decreases i
  {
    if i > 0 {
      var rest := tokens[3..];
      var j := i - 1;
      assert Parse(tokens, read, unset)[i] == Parse(rest, read, unset)[j];
      ParseEntry(rest, read, unset, j);
      assert rest[3 * j] == tokens[3 * i] && rest[3 * j + 1] == tokens[3 * i + 1] && rest[3 * j + 2] == tokens[3 * i + 2];
    }
  }

  /** The sessions use up at most the tokens, and reading stops at a missing triple or an unreadable third. */
  lemma {:induction false} ParseStops(tokens: seq<string>, read: string -> W.Option<real>, unset: real)
    ensures 3 * |Parse(tokens, read, unset)| <= |tokens|
    ensures var n := |Parse(tokens, read, unset)|; 3 * n + 3 <= |tokens| ==> read(tokens[3 * n + 2]).None?
    decreases |tokens|
  {
    if |tokens| >= 3 && read(tokens[2]).Some? {
      var rest := tokens[3..];
      ParseStops(rest, read, unset);
      var m := |Parse(rest, read, unset)|;
      assert |Parse(tokens, read, unset)| == m + 1;
      if 3 * m + 6 <= |tokens| {
        assert rest[3 * m + 2] == tokens[3 * (m + 1) + 2];
      }
    }
  }

  /** `loadFromFile`: nothing when the file cannot be opened, else the sessions read from it. */
  method LoadFromFile(file: W.Option<string>, read: string -> W.Option<real>, unset: real) returns (list: seq<Entry>)
    ensures list == if file.None? then [] else Parse(Tokens(file.value), read, unset)
  {
    list := [];
    if file.None? {
      return;
    }
    var tokens := Tokens(file.value);
    var i := 0;
    while i + 3 <= |tokens| && read(tokens[i + 2]).Some?
      invariant i <= |tokens|
      invariant list + Parse(tokens[i..], read, unset) == Parse(tokens, read, unset)
      decreases |tokens| - i
    {
      var e := NewSession(tokens[i], tokens[i + 1], read(tokens[i + 2]).value, unset);
      assert tokens[i..][3..] == tokens[i + 3..];
      list := list + [e];
      i := i + 3;
    }
  }

  /** A session the format carries intact: single-word date and name, hours the setter keeps, and a number that reads back. */
  predicate Saveable(e: Entry, show: real -> string, read: string -> W.Option<real>) {
    e.date != "" && NoSpace(e.date) && e.name != "" && NoSpace(e.name)
    && ValidHours(e.hours) && show(e.hours) != "" && NoSpace(show(e.hours)) && read(show(e.hours)) == W.Some(e.hours)
  }

  lemma LineTokens(e: Entry, show: real -> string)
    requires e.date != "" && NoSpace(e.date) && e.name != "" && NoSpace(e.name) && show(e.hours) != "" && NoSpace(show(e.hours))
    ensures Tokens(Line(e, show)) == [e.date, e.name, show(e.hours)]
  {
    var t := show(e.hours);
    assert Line(e, show) == e.date + [' '] + (e.name + [' '] + (t + ['\n'] + ""));
    WordThenSpace(e.date, ' ', e.name + [' '] + (t + ['\n'] + ""));
    WordThenSpace(e.name, ' ', t + ['\n'] + "");
    WordThenSpace(t, '\n', "");
  }

  /** Loading what was saved gives back the same sessions, when each one is saveable. */
  lemma {:induction false} SaveLoadRoundTrip(list: seq<Entry>, show: real -> string, read: string -> W.Option<real>, unset: real)
    requires forall i :: 0 <= i < |list| ==> Saveable(list[i], show, read)
    ensures Parse(Tokens(Serialize(list, show)), read, unset) == list
    decreases |list|
  {
    if list != [] {
      var e := list[0];
      assert Saveable(e, show, read);
      forall i | 0 <= i < |list[1..]| ensures Saveable(list[1..][i], show, read) {
        assert list[1..][i] == list[i + 1];
      }
      SaveLoadRoundTrip(list[1..], show, read, unset);
      var rest := Serialize(list[1..], show);
      TokensAppend(Line(e, show), rest);
      LineTokens(e, show);
      var toks := [e.date, e.name, show(e.hours)] + Tokens(rest);
      assert toks[3..] == Tokens(rest);
      assert [e] + list[1..] == list;
    }
  }

  /** A name with a space splits into two words, so the hours are read from its second word and the load stops there. */
  lemma NameWithSpaceLost(date: string, first: string, second: string, hours: real, show: real -> string, read: string -> W.Option<real>, unset: real)
    requires date != "" && NoSpace(date) && first != "" && NoSpace(first) && second != "" && NoSpace(second)
    requires read(second).None?
    ensures Parse(Tokens(Serialize([Entry(date, first + " " + second, hours)], show)), read, unset) == []
  {
    var t := show(hours);
    assert Serialize([Entry(date, first + " " + second, hours)], show)
        == date + [' '] + (first + [' '] + (second + [' '] + (t + ['\n'])));
    WordThenSpace(date, ' ', first + [' '] + (second + [' '] + (t + ['\n'])));
    WordThenSpace(first, ' ', second + [' '] + (t + ['\n']));
    WordThenSpace(second, ' ', t + ['\n']);
  }
}
