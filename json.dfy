/**
 * A stand-in for `JSON.stringify`/`JSON.parse` of the values the page keeps in
 * local storage. What the page relies on is that serialising is injective and
 * that parsing is partial (a tampered value fails to parse); a record is
 * serialised as the list of its fields, each field escaped and terminated.
 */
module Json {
  import opened Wrappers

  const Terminator: char := ';'
  const Escape: char := '\\'

  /** One field with its terminators and escape characters escaped. */
  function EscapeField(f: string): (r: string)
    ensures |r| >= |f|
  {
    if f == [] then []
    else (if f[0] == Terminator || f[0] == Escape then [Escape, f[0]] else [f[0]]) + EscapeField(f[1..])
  }

  /** The text of a list of fields: each escaped and followed by a terminator, so a
      record with fields is never the empty text. */
  function Stringify(fields: seq<string>): (r: string)
    ensures |r| >= |fields|
  {
    if fields == [] then [] else EscapeField(fields[0]) + [Terminator] + Stringify(fields[1..])
  }

  /** Reads `s` with `cur` as the field read so far and `done` the fields completed. */
  function ParseFrom(s: string, cur: string, done: seq<string>): Option<seq<string>>
    decreases |s|
  {
    if s == [] then (if cur == [] then Some(done) else None)
    else if s[0] == Escape then
      (if |s| >= 2 then ParseFrom(s[2..], cur + [s[1]], done) else None)
    else if s[0] == Terminator then ParseFrom(s[1..], [], done + [cur])
    else ParseFrom(s[1..], cur + [s[0]], done)
  }

  /** The fields `s` holds, or `None` when `s` is not the text of a list of fields. */
  function Parse(s: string): Option<seq<string>> {
    ParseFrom(s, [], [])
  }

  /** Reading one escaped or plain character of a field. */
  lemma ParseFieldChar(c: char, t: string, cur: string, done: seq<string>)
    ensures var head := if c == Terminator || c == Escape then [Escape, c] else [c];
      ParseFrom(head + t, cur, done) == ParseFrom(t, cur + [c], done)
  {
    var head := if c == Terminator || c == Escape then [Escape, c] else [c];
    var s := head + t;
    assert s[|head|..] == t;
    if c == Terminator || c == Escape {
      assert s[0] == Escape && s[1] == c;
    } else {
      assert s[0] == c;
    }
  }

  lemma {:induction false} ParseEscapedField(f: string, rest: string, cur: string, done: seq<string>)
    ensures ParseFrom(EscapeField(f) + rest, cur, done) == ParseFrom(rest, cur + f, done)
    decreases |f|
  {
    if f == [] {
      assert EscapeField(f) + rest == rest;
      assert cur + f == cur;
    } else {
      var head := if f[0] == Terminator || f[0] == Escape then [Escape, f[0]] else [f[0]];
      var t := EscapeField(f[1..]) + rest;
      assert EscapeField(f) + rest == head + t;
      ParseFieldChar(f[0], t, cur, done);
      ParseEscapedField(f[1..], rest, cur + [f[0]], done);
      assert cur + [f[0]] + f[1..] == cur + f;
    }
  }

  lemma {:induction false} ParseStringified(fields: seq<string>, done: seq<string>)
    ensures ParseFrom(Stringify(fields), [], done) == Some(done + fields)
    decreases |fields|
  {
    if fields == [] {
      assert done + fields == done;
    } else {
      var tail := [Terminator] + Stringify(fields[1..]);
      assert Stringify(fields) == EscapeField(fields[0]) + tail;
      ParseEscapedField(fields[0], tail, [], done);
      assert [] + fields[0] == fields[0];
      assert tail[1..] == Stringify(fields[1..]);
      ParseStringified(fields[1..], done + [fields[0]]);
      assert done + [fields[0]] + fields[1..] == done + fields;
    }
  }

  /** Parsing what was stringified gives the fields back. */
  lemma ParseStringify(fields: seq<string>)
    ensures Parse(Stringify(fields)) == Some(fields)
  {
    ParseStringified(fields, []);
    assert [] + fields == fields;
  }

  /** Stringifying is injective: different field lists never share a text. */
  lemma StringifyInjective(a: seq<string>, b: seq<string>)
    requires Stringify(a) == Stringify(b)
    ensures a == b
  {
    ParseStringify(a);
    ParseStringify(b);
  }
}
