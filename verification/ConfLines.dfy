/** Configuration files as lines, and lines as fields, as the worker reads and writes them
    (splitConf and joinConf in apps/root-worker/mdadm_conf.go). */
module ConfLines {
  import opened Text

  function SplitConf(conf: string): (lines: seq<string>)
    ensures forall k :: 0 <= k < |lines| ==> '\n' !in lines[k]
  {
    if conf == "" then [] else Split(TrimSuffix(conf, "\n"), '\n')
  }

  function JoinConf(lines: seq<string>): string {
    if lines == [] then "" else Join(lines, "\n") + "\n"
  }

  /** Lines that hold one line each. */
  ghost predicate Lines(lines: seq<string>) { forall k :: 0 <= k < |lines| ==> '\n' !in lines[k] }

  lemma {:induction false} LinesWithin(lines: seq<string>, kept: seq<string>)
    requires Lines(lines) && forall l :: l in kept ==> l in lines
    ensures Lines(kept)
  {
    forall k | 0 <= k < |kept| ensures '\n' !in kept[k] {
      assert kept[k] in lines;
    }
  }

  lemma {:induction false} LinesPair(lines: seq<string>, a: string, b: string)
    requires Lines(lines) && '\n' !in a && '\n' !in b
    ensures Lines(lines + [a, b])
  {}

  /** Whole lines: empty, or ended by a newline. */
  predicate Ended(conf: string) { conf == "" || conf[|conf| - 1] == '\n' }

  lemma {:induction false} SplitOfJoinConf(lines: seq<string>)
    requires Lines(lines)
    ensures SplitConf(JoinConf(lines)) == lines && Ended(JoinConf(lines))
  {
    if lines != [] {
      var s := JoinConf(lines);
      assert s[|s| - 1..] == "\n" && s[..|s| - 1] == Join(lines, "\n");
      SplitOfJoin(lines, '\n');
    }
  }

  /** Reading and writing back adds the final newline, and changes nothing else. */
  lemma {:induction false} JoinOfSplitConf(conf: string)
    ensures JoinConf(SplitConf(conf)) == if Ended(conf) then conf else conf + "\n"
  {
    if conf != "" {
      JoinOfSplit(TrimSuffix(conf, "\n"), '\n');
      assert conf[|conf| - 1..] == [conf[|conf| - 1]];
      if Ended(conf) { assert conf == conf[..|conf| - 1] + "\n"; }
    }
  }

  // ── Fields ──────────────────────────────────────────────────────────────────

  /** unicode.IsSpace. */
  predicate Space(c: char) {
    || c in {'\t', '\n', '\U{b}', '\U{c}', '\r', ' ', '\U{85}', '\U{a0}', '\U{1680}', '\U{2028}', '\U{2029}',
      '\U{202f}', '\U{205f}', '\U{3000}'}
    || '\U{2000}' <= c <= '\U{200a}'
  }

  function TrimLeft(s: string): string { if s != "" && Space(s[0]) then TrimLeft(s[1..]) else s }

  function TrimRight(s: string): string { if s != "" && Space(s[|s| - 1]) then TrimRight(s[..|s| - 1]) else s }

  function TrimSpace(s: string): string { TrimRight(TrimLeft(s)) }

  /** The first run of characters that are not spaces, from the start. */
  function Word(s: string): (w: string)
    ensures w <= s && forall k :: 0 <= k < |w| ==> !Space(w[k])
    ensures |w| < |s| ==> Space(s[|w|])
  {
    if s == "" || Space(s[0]) then "" else [s[0]] + Word(s[1..])
  }

  predicate Field(f: string) { f != "" && forall k :: 0 <= k < |f| ==> !Space(f[k]) }

  /** strings.Fields. */
  function Fields(s: string): (fields: seq<string>)
    ensures forall k :: 0 <= k < |fields| ==> Field(fields[k])
    decreases |s|
  {
    if s == "" then []
    else if Space(s[0]) then Fields(s[1..])
    else [Word(s)] + Fields(s[|Word(s)|..])
  }

  lemma {:induction false} WordStops(f: string, rest: string)
    requires Field(f) && (rest == "" || Space(rest[0]))
    ensures Word(f + rest) == f
  {
    var s := f + rest;
    if |f| == 1 {
      assert s[1..] == rest && f == [f[0]];
    } else {
      assert s[1..] == f[1..] + rest;
      WordStops(f[1..], rest);
      assert f == [f[0]] + f[1..];
    }
  }

  /** Fields joined by tabs are read back. */
  lemma {:induction false} FieldsOfJoin(fields: seq<string>)
    requires forall k :: 0 <= k < |fields| ==> Field(fields[k])
    ensures Fields(Join(fields, "\t")) == fields
  {
    if |fields| == 1 {
      WordStops(fields[0], "");
      assert fields[0] + "" == fields[0];
    } else if |fields| > 1 {
      var rest := "\t" + Join(fields[1..], "\t");
      var s := fields[0] + rest;
      assert s == Join(fields, "\t");
      WordStops(fields[0], rest);
      assert s[|fields[0]|..] == rest;
      assert rest[1..] == Join(fields[1..], "\t");
      FieldsOfJoin(fields[1..]);
      assert Fields(rest) == Fields(rest[1..]);
      assert fields == [fields[0]] + fields[1..];
    }
  }

  /** What a line of fields holds comes from the line. */
  lemma {:induction false} FieldsHoldNoNewline(s: string)
    ensures forall k :: 0 <= k < |Fields(s)| ==> '\n' !in Fields(s)[k]
  {
    assert Space('\n');
  }
}
