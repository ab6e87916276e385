/** The curses front end (`CursesUI`): the menu cursor, the line editor, the summary
    column and the ENTER/ESC prompts.  Keystrokes are a finite sequence of key codes;
    when it runs out before a prompt is answered, the prompt is still waiting in `getch`. */
module Ui {
  import opened Text
  import opened Session

  // Key codes as ncurses defines them.
  const KEY_DOWN := 258
  const KEY_UP := 259
  const KEY_LEFT := 260
  const KEY_RIGHT := 261
  const KEY_HOME := 262
  const KEY_BACKSPACE := 263
  const KEY_ENTER := 343
  const KEY_END := 360
  const ESC := 27

  predicate IsEnter(k: int) { k == KEY_ENTER || k == 10 || k == 13 }
  predicate IsBackspace(k: int) { k == KEY_BACKSPACE || k == 127 || k == 8 }
  predicate IsHome(k: int) { k == KEY_HOME || k == 1 }      // Home or Ctrl+A
  predicate IsEnd(k: int) { k == KEY_END || k == 5 }        // End or Ctrl+E
  predicate IsClear(k: int) { k == 21 || k == 11 }          // Ctrl+U or Ctrl+K
  predicate IsPrintable(k: int) { 32 <= k <= 126 }

  /** How a prompt ends: with a value, with ESC (`SystemExit`), or still waiting for a key. */
  datatype Answer<T> = Given(value: T) | Cancelled | Waiting

  datatype Stop = Committed | Escaped | Exhausted

  // ---------------------------------------------------------------- menu

  datatype MenuAction = MoveTo(cursor: nat) | Commit | Escape

  /** One keystroke of `menu`: UP and DOWN move the cursor but stop at the ends. */
  function MenuStep(n: nat, cur: nat, key: int): (a: MenuAction)
    requires cur < n
    ensures a.MoveTo? ==> a.cursor < n
    ensures key == KEY_UP ==> a == MoveTo(if cur > 0 then cur - 1 else cur)
    ensures key == KEY_DOWN ==> a == MoveTo(if cur < n - 1 then cur + 1 else cur)
    ensures IsEnter(key) <==> a == Commit
    ensures key == ESC <==> a == Escape
    ensures key != KEY_UP && key != KEY_DOWN && !IsEnter(key) && key != ESC ==> a == MoveTo(cur)
  {
    if key == KEY_UP && cur > 0 then MoveTo(cur - 1)
    else if key == KEY_DOWN && cur < n - 1 then MoveTo(cur + 1)
    else if IsEnter(key) then Commit
    else if key == ESC then Escape
    else MoveTo(cur)
  }

  /** Where the menu loop stops, with the cursor it stops at and the keys it did not read. */
  datatype MenuResult = MenuResult(stop: Stop, cursor: nat, rest: seq<int>)

  function MenuRun(n: nat, cur: nat, keys: seq<int>): (r: MenuResult)
    requires cur < n
    ensures r.cursor < n
    decreases |keys|
  {
    if keys == [] then MenuResult(Exhausted, cur, [])
    else
      match MenuStep(n, cur, keys[0])
      case MoveTo(c) => MenuRun(n, c, keys[1..])
      case Commit => MenuResult(Committed, cur, keys[1..])
      case Escape => MenuResult(Escaped, cur, keys[1..])
  }

  /** The menu reads a prefix of the keys: all of them when it is still waiting, and at least
      the answering key otherwise. */
  lemma {:induction false} MenuRunConsumes(n: nat, cur: nat, keys: seq<int>)
    requires cur < n
    ensures var r := MenuRun(n, cur, keys);
      && |r.rest| <= |keys| && r.rest == keys[|keys| - |r.rest|..]
      && (r.stop == Exhausted <==> r.rest == [] && (forall i :: 0 <= i < |keys| ==> !IsEnter(keys[i]) && keys[i] != ESC))
      && (r.stop != Exhausted ==> |r.rest| < |keys|)
    decreases |keys|
  {
    if keys != [] {
      var a := MenuStep(n, cur, keys[0]);
      if a.MoveTo? {
        assert !IsEnter(keys[0]) && keys[0] != ESC;
        MenuRunConsumes(n, a.cursor, keys[1..]);
        assert MenuRun(n, cur, keys) == MenuRun(n, a.cursor, keys[1..]);
        assert forall i :: 1 <= i < |keys| ==> keys[i] == keys[1..][i - 1];
      } else {
        assert MenuRun(n, cur, keys).rest == keys[1..] && MenuRun(n, cur, keys).stop != Exhausted;
      }
    }
  }

  function Presses(key: int, k: nat): (r: seq<int>)
    ensures |r| == k && forall i :: 0 <= i < k ==> r[i] == key
  {
    seq(k, _ => key)
  }

  /** k presses of DOWN move the cursor k places but never past the last option. */
  lemma {:induction false} MenuDownClamps(n: nat, cur: nat, k: nat, rest: seq<int>)
    requires cur < n
    ensures MenuRun(n, cur, Presses(KEY_DOWN, k) + rest)
         == MenuRun(n, if cur + k < n then cur + k else n - 1, rest)
    decreases k
  {
    if k > 0 {
      var keys := Presses(KEY_DOWN, k) + rest;
      assert keys[0] == KEY_DOWN;
      assert keys[1..] == Presses(KEY_DOWN, k - 1) + rest;
      var next := if cur < n - 1 then cur + 1 else cur;
      MenuDownClamps(n, next, k - 1, rest);
    } else {
      assert Presses(KEY_DOWN, k) + rest == rest;
    }
  }

  /** k presses of UP move the cursor k places back but never before the first option. */
  lemma {:induction false} MenuUpClamps(n: nat, cur: nat, k: nat, rest: seq<int>)
    requires cur < n
    ensures MenuRun(n, cur, Presses(KEY_UP, k) + rest)
         == MenuRun(n, if cur >= k then cur - k else 0, rest)
    decreases k
  {
    if k > 0 {
      var keys := Presses(KEY_UP, k) + rest;
      assert keys[0] == KEY_UP;
      assert keys[1..] == Presses(KEY_UP, k - 1) + rest;
      var next := if cur > 0 then cur - 1 else cur;
      MenuUpClamps(n, next, k - 1, rest);
    } else {
      assert Presses(KEY_UP, k) + rest == rest;
    }
  }

  /** No wrap-around: UP then ENTER on a fresh menu selects the first option, and any number
      of DOWN presses past the end followed by ENTER selects the last one. */
  lemma MenuDoesNotWrap(n: nat, extra: nat, rest: seq<int>)
    requires n > 0
    ensures MenuRun(n, 0, [KEY_UP, 10] + rest) == MenuResult(Committed, 0, rest)
    ensures MenuRun(n, 0, Presses(KEY_DOWN, n + extra) + [10] + rest) == MenuResult(Committed, n - 1, rest)
  {
    var ks := [KEY_UP, 10] + rest;
    assert ks[1..][1..] == rest;
    MenuDownClamps(n, 0, n + extra, [10] + rest);
    assert Presses(KEY_DOWN, n + extra) + [10] + rest == Presses(KEY_DOWN, n + extra) + ([10] + rest);
    assert ([10] + rest)[1..] == rest;
  }

  // ---------------------------------------------------------------- line editor

  /** The text typed so far and the cursor offset in it. */
  datatype EditorState = EditorState(buf: string, cursor: nat)

  predicate EditorValid(st: EditorState) { st.cursor <= |st.buf| }

  datatype EditAction = Edit(next: EditorState) | Finish | Abort

  /** One keystroke of `input`. */
  function EditStep(st: EditorState, key: int): (a: EditAction)
    requires EditorValid(st)
    ensures a.Edit? ==> EditorValid(a.next)
    ensures IsEnter(key) <==> a == Finish
    ensures key == ESC <==> a == Abort
    ensures IsBackspace(key) ==> a == Edit(
      if st.cursor > 0 then EditorState(st.buf[..st.cursor - 1] + st.buf[st.cursor..], st.cursor - 1) else st)
    ensures key == KEY_LEFT ==> a == Edit(EditorState(st.buf, if st.cursor > 0 then st.cursor - 1 else 0))
    ensures key == KEY_RIGHT ==> a == Edit(EditorState(st.buf, if st.cursor < |st.buf| then st.cursor + 1 else |st.buf|))
    ensures IsHome(key) ==> a == Edit(EditorState(st.buf, 0))
    ensures IsEnd(key) ==> a == Edit(EditorState(st.buf, |st.buf|))
    ensures IsClear(key) ==> a == Edit(EditorState([], 0))
    ensures IsPrintable(key) ==> a == Edit(EditorState(st.buf[..st.cursor] + [key as char] + st.buf[st.cursor..], st.cursor + 1))
    ensures (!IsEnter(key) && !IsBackspace(key) && key != KEY_LEFT && key != KEY_RIGHT && key != ESC
             && !IsHome(key) && !IsEnd(key) && !IsClear(key) && !IsPrintable(key)) ==> a == Edit(st)
  {
    var b, c := st.buf, st.cursor;
    if IsEnter(key) then Finish
    else if IsBackspace(key) then
      Edit(if c > 0 then EditorState(b[..c - 1] + b[c..], c - 1) else st)
    else if key == KEY_LEFT then Edit(EditorState(b, if c - 1 > 0 then c - 1 else 0))
    else if key == KEY_RIGHT then Edit(EditorState(b, if |b| < c + 1 then |b| else c + 1))
    else if key == ESC then Abort
    else if IsHome(key) then Edit(EditorState(b, 0))
    else if IsEnd(key) then Edit(EditorState(b, |b|))
    else if IsClear(key) then Edit(EditorState([], 0))
    else if IsPrintable(key) then Edit(EditorState(b[..c] + [key as char] + b[c..], c + 1))
    else Edit(st)
  }

  datatype EditResult = EditResult(stop: Stop, state: EditorState, rest: seq<int>)

  function EditRun(st: EditorState, keys: seq<int>): (r: EditResult)
    requires EditorValid(st)
    ensures EditorValid(r.state)
    decreases |keys|
  {
    if keys == [] then EditResult(Exhausted, st, [])
    else
      match EditStep(st, keys[0])
      case Edit(next) => EditRun(next, keys[1..])
      case Finish => EditResult(Committed, st, keys[1..])
      case Abort => EditResult(Escaped, st, keys[1..])
  }

  /** The editor reads a prefix of the keys: all of them when it is still waiting, and at least
      the answering key otherwise. */
  lemma {:induction false} EditRunConsumes(st: EditorState, keys: seq<int>)
    requires EditorValid(st)
    ensures var r := EditRun(st, keys);
      && |r.rest| <= |keys| && r.rest == keys[|keys| - |r.rest|..]
      && (r.stop == Exhausted <==> r.rest == [] && (forall i :: 0 <= i < |keys| ==> !IsEnter(keys[i]) && keys[i] != ESC))
      && (r.stop != Exhausted ==> |r.rest| < |keys|)
    decreases |keys|
  {
    if keys != [] {
      var a := EditStep(st, keys[0]);
      if a.Edit? {
        assert !IsEnter(keys[0]) && keys[0] != ESC;
        EditRunConsumes(a.next, keys[1..]);
        assert EditRun(st, keys) == EditRun(a.next, keys[1..]);
        assert forall i :: 1 <= i < |keys| ==> keys[i] == keys[1..][i - 1];
      } else {
        assert EditRun(st, keys).rest == keys[1..] && EditRun(st, keys).stop != Exhausted;
      }
    }
  }

  /** A printable key followed by backspace undoes the insertion. */
  lemma InsertThenBackspace(st: EditorState, key: int)
    requires EditorValid(st) && IsPrintable(key)
    ensures EditStep(EditStep(st, key).next, KEY_BACKSPACE) == Edit(st)
  {
    var b, c := st.buf, st.cursor;
    var nb := b[..c] + [key as char] + b[c..];
    assert nb[..c] + nb[c + 1..] == b;
  }

  predicate Printable(text: string) {
    forall i :: 0 <= i < |text| ==> 32 <= text[i] as int <= 126
  }

  /** The key codes that type `text`. */
  function Codes(text: string): (r: seq<int>)
    ensures |r| == |text| && forall i :: 0 <= i < |text| ==> r[i] == text[i] as int
  {
    seq(|text|, i requires 0 <= i < |text| => text[i] as int)
  }

  /** One printable key inserts its character at the cursor. */
  lemma TypeOne(st: EditorState, ch: char, rest: seq<int>)
    requires EditorValid(st) && 32 <= ch as int <= 126
    ensures EditRun(st, [ch as int] + rest)
         == EditRun(EditorState(st.buf[..st.cursor] + [ch] + st.buf[st.cursor..], st.cursor + 1), rest)
  {
    var keys := [ch as int] + rest;
    assert keys[0] == ch as int && keys[1..] == rest;
    assert (ch as int) as char == ch;
  }

  lemma CodesCons(text: string, rest: seq<int>)
    requires text != []
    ensures Codes(text) + rest == [text[0] as int] + (Codes(text[1..]) + rest)
  {
  }

  lemma InsertSplice(b: string, c: nat, ch: char, t: string)
    requires c <= |b|
    ensures var nb := b[..c] + [ch] + b[c..];
      c + 1 <= |nb| && nb[..c + 1] + t + nb[c + 1..] == b[..c] + ([ch] + t) + b[c..]
  {
    var nb := b[..c] + [ch] + b[c..];
    assert nb[..c + 1] == b[..c] + [ch];
    assert nb[c + 1..] == b[c..];
  }

  /** Typing printable text inserts it at the cursor and leaves the cursor after it. */
  lemma {:induction false} TypingInserts(st: EditorState, text: string, rest: seq<int>)
    requires EditorValid(st) && Printable(text)
    ensures EditRun(st, Codes(text) + rest)
         == EditRun(EditorState(st.buf[..st.cursor] + text + st.buf[st.cursor..], st.cursor + |text|), rest)
    decreases |text|
  {
    var b, c := st.buf, st.cursor;
    if text == [] {
      assert Codes(text) + rest == rest;
      assert b[..c] + text + b[c..] == b;
      assert EditorState(b[..c] + text + b[c..], c + |text|) == st;
    } else {
      var next := EditorState(b[..c] + [text[0]] + b[c..], c + 1);
      var reached := EditorState(next.buf[..next.cursor] + text[1..] + next.buf[next.cursor..], next.cursor + |text[1..]|);
      assert reached == EditorState(b[..c] + text + b[c..], c + |text|) by {
        InsertSplice(b, c, text[0], text[1..]);
        assert [text[0]] + text[1..] == text;
      }
      calc {
        EditRun(st, Codes(text) + rest);
        { CodesCons(text, rest); }
        EditRun(st, [text[0] as int] + (Codes(text[1..]) + rest));
        { TypeOne(st, text[0], Codes(text[1..]) + rest); }
        EditRun(next, Codes(text[1..]) + rest);
        { TypingInserts(next, text[1..], rest); }
        EditRun(reached, rest);
      }
    }
  }

  /** Clearing the line and typing a new text replaces whatever the default was. */
  lemma ClearThenType(default: string, text: string, rest: seq<int>)
    requires Printable(text)
    ensures EditRun(EditorState(default, |default|), [21] + Codes(text) + [10] + rest)
         == EditResult(Committed, EditorState(text, |text|), rest)
  {
    var keys := [21] + Codes(text) + [10] + rest;
    assert keys[1..] == Codes(text) + ([10] + rest);
    TypingInserts(EditorState([], 0), text, [10] + rest);
    assert [] + text + [] == text;
    assert ([10] + rest)[1..] == rest;
  }

  // ---------------------------------------------------------------- answers

  /** A prompt's answer and the keys left for the next prompt. */
  datatype Reply<T> = Reply(answer: Answer<T>, rest: seq<int>)

  /** The answer of a prompt that did not give one, carried over to a later result type. */
  function Abandon<T, U>(a: Answer<T>): (b: Answer<U>)
    requires !a.Given?
    ensures b.Cancelled? <==> a.Cancelled?
    ensures !b.Given?
  {
    if a.Cancelled? then Cancelled else Waiting
  }

  /** What `menu` answers when it reads `keys`. */
  function MenuReply(options: seq<string>, keys: seq<int>): (r: Reply<string>)
    requires |options| > 0
    ensures r.answer.Given? ==> r.answer.value in options
  {
    var m := MenuRun(|options|, 0, keys);
    Reply(match m.stop
          case Committed => Given(options[m.cursor])
          case Escaped => Cancelled
          case Exhausted => Waiting,
          m.rest)
  }

  /** What `input` answers when it reads `keys`, starting from `default`. */
  function InputReply(default: string, keys: seq<int>): Reply<string> {
    var e := EditRun(EditorState(default, |default|), keys);
    Reply(match e.stop
          case Committed => Given(Strip(e.state.buf))
          case Escaped => Cancelled
          case Exhausted => Waiting,
          e.rest)
  }

  /** ENTER on a fresh menu picks the first option; ESC cancels it. */
  lemma MenuFirstKey(options: seq<string>, rest: seq<int>)
    requires |options| > 0
    ensures MenuReply(options, [10] + rest) == Reply(Given(options[0]), rest)
    ensures MenuReply(options, [ESC] + rest) == Reply(Cancelled, rest)
  {
    assert ([10] + rest)[1..] == rest;
    assert ([ESC] + rest)[1..] == rest;
  }

  /** ENTER right away accepts the default, stripped; ESC right away cancels. */
  lemma InputFirstKey(default: string, rest: seq<int>)
    ensures InputReply(default, [10] + rest) == Reply(Given(Strip(default)), rest)
    ensures InputReply(default, [ESC] + rest) == Reply(Cancelled, rest)
  {
    assert ([10] + rest)[1..] == rest;
    assert ([ESC] + rest)[1..] == rest;
  }

  // ---------------------------------------------------------------- summary column

  /** How `_draw_summary` fits a value in the column: a value wider than `w - x - 10` is cut
      to `w - x - 13` characters (Python slicing) followed by "...". */
  function Truncate(value: string, w: int, x: int): (r: string)
    ensures |value| <= w - x - 10 ==> r == value
    ensures |value| > w - x - 10 ==> r == PyPrefix(value, w - x - 13) + "..."
  {
    if |value| > w - x - 10 then PyPrefix(value, w - x - 13) + "..." else value
  }

  /** The `key: value` texts of the summary, each value cut to fit from column `x`. */
  function SummaryTexts(items: seq<(string, Value)>, width: int, x: int): (r: seq<string>)
    ensures |r| == |items|
    decreases |items|
  {
    if items == [] then []
    else SummaryTexts(items[..|items| - 1], width, x)
         + [items[|items| - 1].0 + ": " + Truncate(Render(items[|items| - 1].1), width, x)]
  }

  /** The summary text of entry `i` is its key, ": " and its value as `str` prints it, cut. */
  lemma {:induction false} SummaryTextAt(items: seq<(string, Value)>, width: int, x: int, i: nat)
    requires i < |items|
    ensures SummaryTexts(items, width, x)[i] == items[i].0 + ": " + Truncate(Render(items[i].1), width, x)
    decreases |items|
  {
    var p := items[..|items| - 1];
    if i < |items| - 1 {
      SummaryTextAt(p, width, x, i);
      assert p[i] == items[i];
    }
  }

  /** Showing the next text one row below the last keeps the lines in step with the texts. */
  lemma LinesExtend(lines: seq<SummaryLine>, texts: seq<string>, x: nat)
    requires |lines| < |texts|
    requires forall j :: 0 <= j < |lines| ==> lines[j] == SummaryLine(2 + j, x, texts[j])
    ensures var next := lines + [SummaryLine(2 + |lines|, x, texts[|lines|])];
      forall j :: 0 <= j < |next| ==> next[j] == SummaryLine(2 + j, x, texts[j])
  {
  }

  /** When the column is at least 13 wide, the text shown never exceeds `w - x - 10`, and a
      cut value keeps exactly its first `w - x - 13` characters. */
  lemma TruncateFits(value: string, w: int, x: int)
    requires w - x >= 13
    ensures |Truncate(value, w, x)| <= w - x - 10
    ensures |value| > w - x - 10 ==>
      Truncate(value, w, x) == value[..w - x - 13] + "..." && |Truncate(value, w, x)| == w - x - 10
  {
  }

  datatype SummaryLine = SummaryLine(y: nat, x: nat, text: string)

  function Min(a: int, b: int): int { if a < b then a else b }

  // ---------------------------------------------------------------- prompts

  /** `confirm_installation` and `prompt_reboot`: every key except ESC means yes. */
  function Confirms(key: int): (yes: bool)
    ensures yes <==> key != ESC
    ensures IsEnter(key) ==> yes
  {
    key !in [27]
  }

  class CursesUI {
    const height: nat
    const width: nat
    /** The keystrokes `getch` has not returned yet. */
    var keys: seq<int>

    constructor (height: nat, width: nat, keys: seq<int>)
      ensures this.height == height && this.width == width && this.keys == keys
    {
      this.height := height;
      this.width := width;
      this.keys := keys;
    }

    /** `getch`. */
    method GetKey() returns (key: int)
      requires keys != []
      modifies this
      ensures key == old(keys)[0] && keys == old(keys)[1..]
    {
      key := keys[0];
      keys := keys[1..];
    }

    /** `menu`: the cursor starts on the first option; ENTER stores and returns the option
        under the cursor, ESC cancels without storing anything. */
    method Menu(title: string, options: seq<string>, config: Config, keyname: string) returns (r: Answer<string>)
      requires |options| > 0 && config.Valid()
      modifies this, config
      ensures config.Valid()
      ensures var m := MenuReply(options, old(keys)); r == m.answer && keys == m.rest
      ensures r.Given? ==> Assigned(old(config.keys), old(config.values), config.keys, config.values, keyname, Str(r.value))
      ensures !r.Given? ==> config.keys == old(config.keys) && config.values == old(config.values)
    {
      var n := |options|;
      var current := 0;
      while keys != []
        invariant current < n
        invariant MenuRun(n, current, keys) == MenuRun(n, 0, old(keys))
        invariant config.keys == old(config.keys) && config.values == old(config.values)
        decreases |keys|
      {
        var key := GetKey();
        match MenuStep(n, current, key)
        case MoveTo(c) =>
          current := c;
        case Commit =>
          config.Set(keyname, Str(options[current]));
          return Given(options[current]);
        case Escape =>
          return Cancelled;
      }
      return Waiting;
    }

    /** `input`: the editor starts with the default text and the cursor after it; ENTER stores
        and returns the text with surrounding whitespace stripped. */
    method Input(prompt: string, config: Config, keyname: string, hidden: bool, default: string)
      returns (r: Answer<string>)
      requires config.Valid()
      modifies this, config
      ensures config.Valid()
      ensures var e := InputReply(default, old(keys)); r == e.answer && keys == e.rest
      ensures r.Given? ==> Assigned(old(config.keys), old(config.values), config.keys, config.values, keyname, Str(r.value))
      ensures !r.Given? ==> config.keys == old(config.keys) && config.values == old(config.values)
    {
      var st := EditorState(default, |default|);
      while keys != []
        invariant EditorValid(st)
        invariant EditRun(st, keys) == EditRun(EditorState(default, |default|), old(keys))
        invariant config.keys == old(config.keys) && config.values == old(config.values)
        decreases |keys|
      {
        var key := GetKey();
        match EditStep(st, key)
        case Edit(next) =>
          st := next;
        case Finish =>
          var value := Strip(st.buf);
          config.Set(keyname, Str(value));
          return Given(value);
        case Abort =>
          return Cancelled;
      }
      return Waiting;
    }

    /** `_draw_summary`: one line per configuration entry, from row 2, while the row is above
        the last screen line; each shows `key: value` with the value cut to fit. */
    method DrawSummary(config: Config) returns (lines: seq<SummaryLine>)
      requires config.Valid()
      ensures var items := config.Items(); var texts := SummaryTexts(items, width, width / 2 + 2);
        && |lines| == (if height >= 3 then Min(|items|, height - 3) else 0)
        && forall i :: 0 <= i < |lines| ==> lines[i] == SummaryLine(2 + i, width / 2 + 2, texts[i])
    {
      var items := config.Items();
      var x := width / 2 + 2;
      ghost var texts := SummaryTexts(items, width, x);
      var y := 2;
      lines := [];
      for i := 0 to |items|
        invariant y == 2 + i
        invariant |lines| == (if height >= 3 then Min(i, height - 3) else 0)
        invariant forall j :: 0 <= j < |lines| ==> lines[j] == SummaryLine(2 + j, x, texts[j])
      {
        if y < height - 1 {
          var text := items[i].0 + ": " + Truncate(Render(items[i].1), width, x);
          SummaryTextAt(items, width, x, i);
          LinesExtend(lines, texts, x);
          lines := lines + [SummaryLine(y, x, text)];
        }
        y := y + 1;
      }
    }

    /** `confirm_installation` / `prompt_reboot`: read one key; anything but ESC is yes. */
    method Confirm() returns (r: Answer<bool>)
      modifies this
      ensures old(keys) == [] ==> r == Waiting && keys == []
      ensures old(keys) != [] ==> r == Given(Confirms(old(keys)[0])) && keys == old(keys)[1..]
    {
      if keys == [] {
        return Waiting;
      }
      var key := GetKey();
      return Given(Confirms(key));
    }

    /** `confirm_installation`: the whole configuration, one untruncated `key: value` line per
        entry from row 2 while the row is above the last screen line, then one key. */
    method ConfirmInstallation(config: Config) returns (lines: seq<SummaryLine>, r: Answer<bool>)
      requires config.Valid()
      modifies this
      ensures var items := config.Items();
        && |lines| == (if height >= 3 then Min(|items|, height - 3) else 0)
        && forall i :: 0 <= i < |lines| ==> lines[i] == SummaryLine(2 + i, 2, items[i].0 + ": " + Render(items[i].1))
      ensures old(keys) == [] ==> r == Waiting && keys == []
      ensures old(keys) != [] ==> r == Given(Confirms(old(keys)[0])) && keys == old(keys)[1..]
    {
      var items := config.Items();
      var y := 2;
      lines := [];
      for i := 0 to |items|
        invariant y == 2 + i
        invariant |lines| == (if height >= 3 then Min(i, height - 3) else 0)
        invariant forall j :: 0 <= j < |lines| ==> lines[j] == SummaryLine(2 + j, 2, items[j].0 + ": " + Render(items[j].1))
      {
        if y < height - 1 {
          lines := lines + [SummaryLine(y, 2, items[i].0 + ": " + Render(items[i].1))];
        }
        y := y + 1;
      }
      r := Confirm();
    }

    /** The key press `show_error` waits for before returning. */
    method AwaitKey() returns (pressed: bool)
      modifies this
      ensures pressed <==> old(keys) != []
      ensures keys == if old(keys) == [] then [] else old(keys)[1..]
    {
      if keys == [] {
        return false;
      }
      var _ := GetKey();
      return true;
    }
  }
}
