/** The lexical rules of the scanner of db/bind.go at a position of a query, spelled out in
    characters: what opens a literal, where it ends, and what a placeholder name is. Nothing
    here refers to the character classes or the opener table that the scanner uses. */
module SqlOpeners {
  import opened Wrappers
  import opened SqlScanner
  import opened SqlScanLoops
  import opened SqlTemplate

  /** The length of the literal at a position, as literalEnd finds it. */
  function LengthAt(query: string, i: nat, d: Dialect): nat
    requires i < |query|
  {
    LitLen(Look(query, i), query[i..], d)
  }

  /** A letter, a digit, an underscore or a byte above 0x7F. */
  predicate Word(c: char) {
    'a' <= c <= 'z' || 'A' <= c <= 'Z' || '0' <= c <= '9' || c == '_' || c as int >= 0x80
  }

  // ---------------------------------------------------------------- quotes

  /** The quote at `i` follows an E that starts a token. */
  predicate AfterE(query: string, i: nat)
    requires i <= |query|
  {
    && i > 0 && (query[i - 1] == 'E' || query[i - 1] == 'e')
    && (i == 1 || !(Word(query[i - 2]) || query[i - 2] == '$'))
  }

  /** A single quote opens in every dialect. A backslash escapes in it for MySQL, and for
      PostgreSQL exactly behind an E that starts a token. */
  lemma SingleQuoteOpens(query: string, i: nat, d: Dialect)
    requires i < |query| && query[i] == '\''
    ensures LengthAt(query, i, d) ==
            1 + QuotedTail(query[i + 1..], '\'', d.MySQL? || (d.Postgres? && AfterE(query, i)))
  {
    LitLenAt(query, i, d);
  }

  /** So does a double quote, in which only MySQL knows the backslash. */
  lemma DoubleQuoteOpens(query: string, i: nat, d: Dialect)
    requires i < |query| && query[i] == '"'
    ensures LengthAt(query, i, d) == 1 + QuotedTail(query[i + 1..], '"', d.MySQL?)
  {
    LitLenAt(query, i, d);
  }

  /** A backtick opens for MySQL only, and knows no backslash. */
  lemma BacktickOpens(query: string, i: nat, d: Dialect)
    requires i < |query| && query[i] == '`'
    ensures LengthAt(query, i, d) == if d.MySQL? then 1 + QuotedTail(query[i + 1..], '`', false) else 0
  {
    LitLenAt(query, i, d);
  }

  // ---------------------------------------------------------------- comments

  /** The length of a comment that opens with `skip` bytes and runs past the next newline. */
  predicate IsLine(query: string, i: nat, skip: nat, n: nat)
    requires i + skip <= |query|
  {
    && skip <= n && i + n <= |query|
    && (forall k :: i + skip <= k < i + n - 1 ==> query[k] != '\n')
    && (i + n < |query| ==> n > skip && query[i + n - 1] == '\n')
  }

  lemma LineIs(query: string, i: nat, skip: nat)
    requires i + skip <= |query|
    ensures IsLine(query, i, skip, skip + LineTail(query[i + skip..]))
  {
    var t := query[i + skip..];
    var n := LineTail(t);
    assert forall k :: 0 <= k < |t| ==> t[k] == query[i + skip + k];
    forall k | i + skip <= k < i + skip + n - 1 ensures query[k] != '\n' {
      assert t[k - i - skip] != '\n';
    }
  }

  /** A '#' starts a comment for MySQL only. */
  lemma HashOpens(query: string, i: nat, d: Dialect)
    requires i < |query| && query[i] == '#'
    ensures if d.MySQL? then IsLine(query, i, 1, LengthAt(query, i, d)) else LengthAt(query, i, d) == 0
  {
    LitLenAt(query, i, d);
    LineIs(query, i, 1);
  }

  /** Two dashes start a comment, for MySQL only when nothing or white space follows them. */
  predicate DashesOpen(query: string, i: nat, d: Dialect)
    requires i < |query|
  {
    && i + 1 < |query| && query[i + 1] == '-'
    && (d.MySQL? && i + 2 < |query| ==>
          || query[i + 2] == ' ' || query[i + 2] == '\t' || query[i + 2] == '\n' || query[i + 2] == '\r'
          || query[i + 2] as int == 0x0B || query[i + 2] as int == 0x0C)
  }

  lemma DashLength(query: string, i: nat, d: Dialect)
    requires i < |query| && query[i] == '-'
    ensures LengthAt(query, i, d) == if DashesOpen(query, i, d) then 2 + LineTail(query[i + 2..]) else 0
  {
    LitLenAt(query, i, d);
    hide LitLen, LineTail, After, DollarOpens;
  }

  lemma DashOpens(query: string, i: nat, d: Dialect)
    requires i < |query| && query[i] == '-'
    ensures if DashesOpen(query, i, d) then IsLine(query, i, 2, LengthAt(query, i, d)) else LengthAt(query, i, d) == 0
  {
    DashLength(query, i, d);
    hide LengthAt, LineTail, IsLine;
    if DashesOpen(query, i, d) { LineIs(query, i, 2); }
  }

  /** A slash and a star open a block comment, which nests for PostgreSQL only. */
  lemma SlashOpens(query: string, i: nat, d: Dialect)
    requires i < |query| && query[i] == '/'
    ensures if i + 1 < |query| && query[i + 1] == '*' then
              var n := LengthAt(query, i, d);
              n >= 2 && BlockEnds(query[i + 2..], n - 2, 1, d.Postgres?)
            else LengthAt(query, i, d) == 0
  {
    LitLenAt(query, i, d);
    if i + 1 < |query| && query[i + 1] == '*' { BlockEndsAtBalance(query[i + 2..], 1, d.Postgres?); }
    hide LitLen, BlockTail, BlockEnds;
  }

  /** The units that block comments are counted in. */
  lemma UnitsAre(s: string, nested: bool)
    requires s != []
    ensures BlockUnit(s, nested) ==
            if |s| > 1 && s[0] == '*' && s[1] == '/' then (2, -1)
            else if nested && |s| > 1 && s[0] == '/' && s[1] == '*' then (2, 1)
            else (1, 0)
  {
  }

  // ---------------------------------------------------------------- dollar quotes

  /** The bytes from `i` to `j` are the opener of a dollar-quoted string: two '$' with a tag
      between them that starts with no digit, at a token boundary. */
  predicate TagAt(query: string, i: nat, j: nat)
    requires i < |query|
  {
    && i < j < |query| && query[i] == '$' && query[j] == '$'
    && (forall k :: i < k < j ==> Word(query[k]))
    && (j > i + 1 ==> !('0' <= query[i + 1] <= '9'))
    && (i > 0 ==> !(Word(query[i - 1]) || query[i - 1] == '$'))
  }

  predicate Occurs(query: string, delim: string, k: nat) { k <= |query| && delim <= query[k..] }

  /** The string ends with the first repeat of its opener, or with the query when there is
      none. */
  ghost predicate TagEnds(query: string, i: nat, j: nat, n: nat)
    requires i < j < |query|
  {
    var delim := query[i..j + 1];
    if i + n == |query| && (forall k: nat :: Occurs(query, delim, k) ==> k <= j) then true
    else
      && n >= 2 * |delim| && Occurs(query, delim, i + n - |delim|)
      && (forall k: nat :: Occurs(query, delim, k) && k > j ==> i + n - |delim| <= k)
  }

  lemma RunEnds(query: string, i: nat, j: nat)
    requires i < j < |query| && query[j] == '$' && (forall k :: i < k < j ==> Word(query[k]))
    ensures TagRun(query[i + 1..]) == j - i - 1
  {
    var t := query[i + 1..];
    var n := TagRun(t);
    assert forall k :: 0 <= k < |t| ==> t[k] == query[i + 1 + k];
    assert n < |t| ==> !IsDollarTagChar(t[n]);
    assert n > j - i - 1 ==> IsDollarTagChar(t[j - i - 1]);
  }

  lemma DollarOpensIff(query: string, i: nat)
    requires i < |query| && query[i] == '$'
    ensures DollarOpens(Look(query, i), query[i..]) <==> exists j: nat :: TagAt(query, i, j)
  {
    var s := query[i..];
    var n := TagRun(s[1..]);
    LookBehind(query, i, Postgres);
    assert s[1..] == query[i + 1..];
    hide After;
    if DollarOpens(Look(query, i), s) {
      var j := i + 1 + n;
      forall k | i < k < j ensures Word(query[k]) {
        assert IsDollarTagChar(s[1..][k - i - 1]);
      }
      assert TagAt(query, i, j);
    }
    if j: nat :| TagAt(query, i, j) {
      RunEnds(query, i, j);
      assert s[1 + n] == query[j];
      hide TagRun;
    }
  }

  /** A '$' opens for PostgreSQL exactly as the head of such an opener, and then the string
      ends with the first repeat of it. */
  lemma DollarOpensAt(query: string, i: nat, d: Dialect)
    requires i < |query| && query[i] == '$'
    ensures LengthAt(query, i, d) > 0 <==> d.Postgres? && exists j: nat :: TagAt(query, i, j)
    ensures forall j: nat :: d.Postgres? && TagAt(query, i, j) ==> TagEnds(query, i, j, LengthAt(query, i, d))
  {
    DollarOpensIff(query, i);
    LitLenAt(query, i, d);
    hide LitLen, DollarLen, DollarOpens, TagAt, TagEnds, After, TagRun, LengthAt;
    assert LengthAt(query, i, d) > 0 <==> d.Postgres? && DollarOpens(Look(query, i), query[i..]) by {
      DollarLength(query, i, d);
    }
    forall j: nat | d.Postgres? && TagAt(query, i, j) ensures TagEnds(query, i, j, LengthAt(query, i, d)) {
      LengthIs(query, i, j, d);
      DollarEnds(query, i, j);
    }
  }

  lemma DollarLength(query: string, i: nat, d: Dialect)
    requires i < |query| && query[i] == '$'
    ensures LengthAt(query, i, d) > 0 <==> d.Postgres? && DollarOpens(Look(query, i), query[i..])
  {
    LitLenAt(query, i, d);
    hide DollarLen, DollarOpens, After, TagRun;
  }

  lemma LengthIs(query: string, i: nat, j: nat, d: Dialect)
    requires i < |query| && d.Postgres? && TagAt(query, i, j)
    ensures LengthAt(query, i, d) == DollarLen(query[i..], j - i + 1)
  {
    DollarOpensIff(query, i);
    LitLenAt(query, i, d);
    assert query[i..][1..] == query[i + 1..];
    RunEnds(query, i, j);
    hide LitLen, DollarLen, DollarOpens, TagAt, After, TagRun;
  }

  lemma DollarEnds(query: string, i: nat, j: nat)
    requires i < j < |query|
    ensures TagEnds(query, i, j, DollarLen(query[i..], j - i + 1))
  {
    hide *;
    var rest, delim := query[j + 1..], query[i..j + 1];
    DollarLenIs(query, i, j);
    assert delim != [];
    forall k: nat | Occurs(query, delim, k) && k > j
      ensures Find(rest, delim).Some? && Find(rest, delim).value <= k - j - 1
    {
      NoneBefore(query, j + 1, delim, k);
    }
    match Find(rest, delim) {
      case None => EndsNowhere(query, i, j, delim);
      case Some(f) =>
        FoundOccurs(query, j + 1, delim);
        EndsAtRepeat(query, i, j, delim, f);
    }
  }

  lemma DollarLenIs(query: string, i: nat, j: nat)
    requires i < j < |query|
    ensures DollarLen(query[i..], j - i + 1) ==
            match Find(query[j + 1..], query[i..j + 1])
            case None => |query| - i
            case Some(f) => (j - i + 1) + f + (j - i + 1)
  {
    var s, open := query[i..], j - i + 1;
    assert s[open..] == query[j + 1..] && s[..open] == query[i..j + 1];
  }

  lemma EndsNowhere(query: string, i: nat, j: nat, delim: string)
    requires i < j < |query| && delim == query[i..j + 1]
    requires forall k: nat :: Occurs(query, delim, k) ==> k <= j
    ensures TagEnds(query, i, j, |query| - i)
  {
    hide Occurs;
  }

  lemma EndsAtRepeat(query: string, i: nat, j: nat, delim: string, f: nat)
    requires i < j < |query| && delim == query[i..j + 1] && Occurs(query, delim, j + 1 + f)
    requires forall k: nat :: Occurs(query, delim, k) && k > j ==> f <= k - j - 1
    ensures TagEnds(query, i, j, (j - i + 1) + f + (j - i + 1))
  {
    hide Occurs;
  }

  lemma {:induction false} FindsFirst(s: string, delim: string, k: nat)
    requires delim != [] && Occurs(s, delim, k)
    ensures Find(s, delim).Some? && Find(s, delim).value <= k
  {
    if !(delim <= s) {
      assert k > 0 && s != [] && s[1..][k - 1..] == s[k..];
      FindsFirst(s[1..], delim, k - 1);
    }
  }

  lemma {:induction false} FoundIsThere(s: string, delim: string)
    requires delim != [] && Find(s, delim).Some?
    ensures Occurs(s, delim, Find(s, delim).value)
  {
    var k := Find(s, delim).value;
    if delim <= s {
      assert s[0..] == s;
    } else {
      FoundIsThere(s[1..], delim);
      assert s[1..][k - 1..] == s[k..];
    }
  }

  lemma NoneBefore(query: string, from: nat, delim: string, k: nat)
    requires from <= k && delim != [] && Occurs(query, delim, k)
    ensures from <= |query| && Find(query[from..], delim).Some? && Find(query[from..], delim).value <= k - from
  {
    assert query[from..][k - from..] == query[k..];
    FindsFirst(query[from..], delim, k - from);
  }

  lemma FoundOccurs(query: string, from: nat, delim: string)
    requires from <= |query| && delim != [] && Find(query[from..], delim).Some?
    ensures Occurs(query, delim, from + Find(query[from..], delim).value)
  {
    var f := Find(query[from..], delim).value;
    FoundIsThere(query[from..], delim);
    assert query[from..][f..] == query[from + f..];
  }

  // ---------------------------------------------------------------- everything else

  /** No other byte opens anything. */
  lemma OthersOpenNothing(query: string, i: nat, d: Dialect)
    requires i < |query|
    requires query[i] != '\'' && query[i] != '"' && query[i] != '`' && query[i] != '#'
    requires query[i] != '-' && query[i] != '/' && query[i] != '$'
    ensures LengthAt(query, i, d) == 0
  {
    LitLenAt(query, i, d);
  }

  // ---------------------------------------------------------------- names

  /** A letter, an underscore or a byte above 0x7F. */
  predicate NameHead(c: char) { 'a' <= c <= 'z' || 'A' <= c <= 'Z' || c == '_' || c as int >= 0x80 }

  /** Outside literals a parameter is a ':' and a name head, a cast is two ':', and the name
      runs as far as word bytes and dots go. */
  lemma NamesAre(b: Behind, s: string, d: Dialect)
    requires s != []
    ensures PieceOf(b, s, d).Param? <==> |s| > 1 && s[0] == ':' && NameHead(s[1])
    ensures PieceOf(b, s, d).Cast? <==> |s| > 1 && s[0] == ':' && s[1] == ':'
    ensures PieceOf(b, s, d).Param? ==>
              var n := |PieceOf(b, s, d).name|;
              && n > 0 && n + 1 <= |s| && PieceOf(b, s, d).name == s[1..n + 1]
              && (forall k :: 1 <= k < n + 1 ==> Word(s[k]) || s[k] == '.')
              && (n + 1 < |s| ==> !(Word(s[n + 1]) || s[n + 1] == '.'))
  {
    if s[0] == ':' { MarksArePlain(b, s, d); }
    hide LitLen;
    if PieceOf(b, s, d).Param? {
      var n := NameRun(s[1..]);
      assert forall k :: 0 <= k < |s| - 1 ==> s[1..][k] == s[k + 1];
      assert PieceOf(b, s, d) == Param(s[1..n + 1]);
      forall k | 1 <= k < n + 1 ensures Word(s[k]) || s[k] == '.' {
        assert IsNameByte(s[1..][k - 1]);
      }
    }
  }

  /** The bytes that stand in for protected text are 0x00 and 0x01. */
  lemma SentinelsAre(q: string)
    ensures SentinelFree(q) <==> forall c :: c in q ==> c as int != 0 && c as int != 1
  {
  }
}
