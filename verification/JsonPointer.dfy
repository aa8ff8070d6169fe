/** Document paths: JSON Pointer text (sections 3 and 4 of RFC 6901) to the segments bound as a `text[]`. */
module JsonPointer {
  import opened Wrappers

  /** `segment.replace("~" + digit, plain)`: left to right, without overlap. */
  function Replace(s: string, digit: char, plain: char): string {
    if |s| < 2 then s
    else if s[0] == '~' && s[1] == digit then [plain] + Replace(s[2..], digit, plain)
    else [s[0]] + Replace(s[1..], digit, plain)
  }

  /** The two sequential replacements of the compiler. */
  function Decode(segment: string): string { Replace(Replace(segment, '1', '/'), '0', '~') }

  /** One left-to-right pass over the escapes; a `~` that starts no escape stands for itself. */
  function DecodeOnce(s: string): string {
    if |s| < 2 then s
    else if s[0] == '~' && s[1] == '1' then ['/'] + DecodeOnce(s[2..])
    else if s[0] == '~' && s[1] == '0' then ['~'] + DecodeOnce(s[2..])
    else [s[0]] + DecodeOnce(s[1..])
  }

  function Escape(s: string): string {
    if s == [] then []
    else (if s[0] == '~' then "~0" else if s[0] == '/' then "~1" else [s[0]]) + Escape(s[1..])
  }

  /** Every `~` starts one of the two escapes, and `/` does not occur. */
  predicate WellFormed(s: string) {
    if s == [] then true
    else if s[0] == '/' then false
    else if s[0] == '~' then |s| >= 2 && s[1] in {'0', '1'} && WellFormed(s[2..])
    else WellFormed(s[1..])
  }

  /** `text.split("/")`. */
  function Split(s: string): (parts: seq<string>)
    ensures |parts| >= 1
  {
    if s == [] then [[]]
    else
      var rest := Split(s[1..]);
      if s[0] == '/' then [[]] + rest else [[s[0]] + rest[0]] + rest[1..]
  }

  function DecodeAll(parts: seq<string>): seq<string> {
    if parts == [] then [] else [Decode(parts[0])] + DecodeAll(parts[1..])
  }

  /** The segments of a pointer; None where the compiler raises. */
  function Segments(pointer: string): Option<seq<string>> {
    if pointer == [] || pointer[0] != '/' then None
    else Some(DecodeAll(Split(pointer[1..])))
  }

  /** Escape each segment and put `/` before it. */
  function Pointer(segments: seq<string>): string {
    if segments == [] then [] else ['/'] + Escape(segments[0]) + Pointer(segments[1..])
  }

  lemma {:induction false} ReplaceOneHead(s: string)
    requires s != [] && s[0] != '0'
    ensures var r := Replace(s, '1', '/'); r != [] && r[0] != '0'
  {
  }

  /** The order of the two passes is harmless: they equal a single pass on every segment, well formed or not. */
  lemma {:induction false} TwoPassesAreOne(s: string)
    ensures Decode(s) == DecodeOnce(s)
  {
    if |s| >= 2 {
      var first := Replace(s, '1', '/');
      if s[0] == '~' && s[1] == '1' {
        TwoPassesAreOne(s[2..]);
        var rest := Replace(s[2..], '1', '/');
        assert first[0] == '/' && first[1..] == rest;
      } else if s[0] == '~' && s[1] == '0' {
        TwoPassesAreOne(s[2..]);
        var rest := Replace(s[2..], '1', '/');
        assert s[1..][1..] == s[2..];
        assert Replace(s[1..], '1', '/') == ['0'] + rest;
        assert first == ['~', '0'] + rest;
        assert first[2..] == rest;
      } else {
        TwoPassesAreOne(s[1..]);
        var rest := Replace(s[1..], '1', '/');
        assert first == [s[0]] + rest && first[1..] == rest;
        if s[0] == '~' { ReplaceOneHead(s[1..]); }
      }
    }
  }

  lemma {:induction false} DecodeEscape(s: string)
    ensures DecodeOnce(Escape(s)) == s
  {
    if s != [] {
      DecodeEscape(s[1..]);
      var rest := Escape(s[1..]);
      if s[0] == '~' {
        assert Escape(s)[2..] == rest;
      } else if s[0] == '/' {
        assert Escape(s)[2..] == rest;
      } else {
        assert Escape(s)[1..] == rest;
        if rest == [] { assert Escape(s) == [s[0]]; }
      }
    }
  }

  lemma {:induction false} EscapeWellFormed(s: string)
    ensures WellFormed(Escape(s)) && '/' !in Escape(s)
  {
    if s != [] {
      EscapeWellFormed(s[1..]);
      var rest := Escape(s[1..]);
      if s[0] == '~' || s[0] == '/' {
        assert Escape(s)[2..] == rest;
      } else {
        assert Escape(s)[1..] == rest;
      }
    }
  }

  lemma {:induction false} EscapeDecodeOnce(s: string)
    requires WellFormed(s)
    ensures Escape(DecodeOnce(s)) == s
  {
    if s != [] {
      if s[0] == '~' {
        EscapeDecodeOnce(s[2..]);
        assert s == s[..2] + s[2..];
        assert DecodeOnce(s)[1..] == DecodeOnce(s[2..]);
      } else {
        EscapeDecodeOnce(s[1..]);
        assert s == [s[0]] + s[1..];
        if |s| >= 2 { assert DecodeOnce(s)[1..] == DecodeOnce(s[1..]); }
      }
    }
  }

  /** Reading a segment loses nothing exactly when the segment is well formed; stray `~` is accepted but not kept apart. */
  lemma SegmentIsFaithful(s: string)
    ensures Escape(Decode(s)) == s <==> WellFormed(s)
  {
    TwoPassesAreOne(s);
    EscapeWellFormed(Decode(s));
    if WellFormed(s) { EscapeDecodeOnce(s); }
  }

  lemma {:induction false} SplitAtSlash(a: string, b: string)
    requires '/' !in a
    ensures Split(a) == [a]
    ensures Split(a + ['/'] + b) == [a] + Split(b)
  {
    if a == [] {
      assert (a + ['/'] + b)[1..] == b;
    } else {
      SplitAtSlash(a[1..], b);
      assert (a + ['/'] + b)[1..] == a[1..] + ['/'] + b;
      assert [a[0]] + a[1..] == a;
    }
  }

  /** The text the compiler splits: the escaped segments joined by `/`. */
  function Joined(segments: seq<string>): string
    requires segments != []
  {
    if |segments| == 1 then Escape(segments[0])
    else Escape(segments[0]) + ['/'] + Joined(segments[1..])
  }

  lemma {:induction false} PointerIsJoined(segments: seq<string>)
    requires segments != []
    ensures Pointer(segments) == ['/'] + Joined(segments)
  {
    if |segments| == 1 {
      assert segments[1..] == [];
    } else {
      PointerIsJoined(segments[1..]);
    }
  }

  lemma SegmentRoundTrip(s: string)
    ensures Decode(Escape(s)) == s && '/' !in Escape(s)
  {
    EscapeWellFormed(s);
    DecodeEscape(s);
    TwoPassesAreOne(Escape(s));
  }

  lemma DecodeAllCons(head: string, parts: seq<string>)
    ensures DecodeAll([head] + parts) == [Decode(head)] + DecodeAll(parts)
  {
    assert ([head] + parts)[1..] == parts;
  }

  lemma {:induction false} SplitJoined(segments: seq<string>)
    requires segments != []
    ensures DecodeAll(Split(Joined(segments))) == segments
  {
    var head := Escape(segments[0]);
    SegmentRoundTrip(segments[0]);
    if |segments| == 1 {
      SplitAtSlash(head, []);
      DecodeAllCons(head, []);
    } else {
      var rest := Joined(segments[1..]);
      SplitJoined(segments[1..]);
      SplitAtSlash(head, rest);
      DecodeAllCons(head, Split(rest));
      assert segments == [segments[0]] + segments[1..];
    }
  }

  /** Every nonempty list of segments survives escaping, joining, splitting and decoding. */
  lemma PointerRoundTrip(segments: seq<string>)
    requires segments != []
    ensures Segments(Pointer(segments)) == Some(segments)
  {
    PointerIsJoined(segments);
    SplitJoined(segments);
    assert Pointer(segments)[1..] == Joined(segments);
  }
}
