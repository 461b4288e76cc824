/**
 * The fixture builders the reducer's scenarios are written with: a row
 * event parsed from "code/scope/table/key", "old/new" payer and data
 * strings; a permission event from an operation mnemonic; a permission
 * snapshot from an account, a permission name and its public keys.
 */
module Fixtures {
  import opened Events

  /** Number of occurrences of x in s. */
  function Occurrences(s: string, x: char): (c: nat)
    ensures c == 0 <==> x !in s
  {
    if s == [] then 0
    else
      assert s == [s[0]] + s[1..];
      Occurrences(s[1..], x) + (if s[0] == x then 1 else 0)
  }

  /** Position of the first occurrence of sep in s, if any. */
  function Find(s: string, sep: char): (r: Option<nat>)
    ensures r.None? <==> sep !in s
    ensures r.Some? ==> r.value < |s| && s[r.value] == sep && sep !in s[..r.value]
  {
    if s == [] then None
    else if s[0] == sep then Some(0)
    else match Find(s[1..], sep)
      case None => None
      case Some(i) =>
        assert s[..i + 1] == [s[0]] + s[1..][..i];
        Some(i + 1)
  }

  /** The parts joined back together with sep between consecutive parts. */
  function Join(parts: seq<string>, sep: char): string
  {
    if parts == [] then []
    else if |parts| == 1 then parts[0]
    else parts[0] + [sep] + Join(parts[1..], sep)
  }

  /**
   * Splitting s around sep into at most n parts, the last part holding the
   * unsplit rest, as Go's strings.SplitN does for n >= 0: no parts for
   * n == 0, otherwise between one and n parts.
   */
  function SplitN(s: string, sep: char, n: nat): (parts: seq<string>)
    ensures n == 0 ==> parts == []
    ensures n > 0 ==> 1 <= |parts| <= n
  {
    if n == 0 then []
    else if n == 1 then [s]
    else match Find(s, sep)
      case None => [s]
      case Some(i) => [s[..i]] + SplitN(s[i + 1..], sep, n - 1)
  }

  /** A split that finds a separator at i cuts s there and splits the rest into one part fewer. */
  lemma {:induction false} SplitNStep(s: string, sep: char, n: nat, i: nat)
    requires n > 1 && Find(s, sep) == Some(i)
    ensures SplitN(s, sep, n) == [s[..i]] + SplitN(s[i + 1..], sep, n - 1)
  {
  }

  /** The parts of a split rejoin to the string split. */
  lemma {:induction false} SplitNJoins(s: string, sep: char, n: nat)
    requires n > 0
    ensures Join(SplitN(s, sep, n), sep) == s
  {
    if n > 1 && Find(s, sep).Some? {
      var i := Find(s, sep).value;
      var rest := SplitN(s[i + 1..], sep, n - 1);
      SplitNStep(s, sep, n, i);
      JoinCons(s[..i], rest, sep);
      SplitNJoins(s[i + 1..], sep, n - 1);
      CutAt(s, i, Join(rest, sep));
    } else {
      assert SplitN(s, sep, n) == [s];
      JoinOne(s, sep);
    }
  }

  /** Cutting s around position i and gluing the pieces back around s[i] gives s. */
  lemma {:induction false} CutAt<T>(s: seq<T>, i: nat, rest: seq<T>)
    requires i < |s| && rest == s[i + 1..]
    ensures s[..i] + [s[i]] + rest == s
  {
  }

  lemma {:induction false} JoinOne(p: string, sep: char)
    ensures Join([p], sep) == p
  {
  }

  /**
   * Only the last part may hold sep, and not even that one when there are
   * fewer than n parts.
   */
  predicate SeparatorFree(parts: seq<string>, sep: char, n: nat)
  {
    (forall i :: 0 <= i < |parts| - 1 ==> sep !in parts[i]) &&
    (0 < |parts| < n ==> sep !in parts[|parts| - 1])
  }

  /** Only the last part of a split may hold sep, and not even that one when the split stopped short of n parts. */
  lemma {:induction false} SplitNSeparators(s: string, sep: char, n: nat)
    ensures SeparatorFree(SplitN(s, sep, n), sep, n)
  {
    if n > 1 && Find(s, sep).Some? {
      var i := Find(s, sep).value;
      SplitNStep(s, sep, n, i);
      SplitNSeparators(s[i + 1..], sep, n - 1);
      SeparatorFreeCons(s[..i], SplitN(s[i + 1..], sep, n - 1), sep, n);
    } else {
      assert SplitN(s, sep, n) == if n == 0 then [] else [s];
    }
  }

  /** A leading part without sep keeps the parts separator-free, with room for one more part. */
  lemma {:induction false} SeparatorFreeCons(p: string, rest: seq<string>, sep: char, n: nat)
    requires n > 1 && sep !in p && 1 <= |rest| && SeparatorFree(rest, sep, n - 1)
    ensures SeparatorFree([p] + rest, sep, n)
  {
    var parts := [p] + rest;
    forall i | 0 <= i < |parts| - 1
      ensures sep !in parts[i]
    {
      if i > 0 {
        assert parts[i] == rest[i - 1];
      }
    }
    assert parts[|parts| - 1] == rest[|rest| - 1];
  }

  /** A split has as many parts as s has separators plus one, capped at n. */
  lemma {:induction false} SplitNCount(s: string, sep: char, n: nat)
    requires n > 0
    ensures |SplitN(s, sep, n)| == if Occurrences(s, sep) + 1 < n then Occurrences(s, sep) + 1 else n
  {
    if n == 1 {
      assert SplitN(s, sep, n) == [s];
    } else {
      match Find(s, sep)
      case None =>
        SplitNWhole(s, sep, n);
      case Some(i) =>
        var rest := s[i + 1..];
        SplitNStep(s, sep, n, i);
        SplitNCount(rest, sep, n - 1);
        OccurrencesAfter(s, sep, i);
        CapStep(|SplitN(s, sep, n)|, |SplitN(rest, sep, n - 1)|, Occurrences(s, sep), Occurrences(rest, sep), n);
    }
  }

  /** One more part and one more separator keep a count capped at n. */
  lemma {:induction false} CapStep(parts: nat, restParts: nat, occ: nat, restOcc: nat, n: nat)
    requires n > 1 && parts == 1 + restParts && occ == restOcc + 1
    requires restParts == if restOcc + 1 < n - 1 then restOcc + 1 else n - 1
    ensures parts == if occ + 1 < n then occ + 1 else n
  {
  }

  /** The separators of s are the one at i and those after it, when none comes before i. */
  lemma {:induction false} OccurrencesAfter(s: string, sep: char, i: nat)
    requires i < |s| && s[i] == sep && sep !in s[..i]
    ensures Occurrences(s, sep) == Occurrences(s[i + 1..], sep) + 1
  {
    if i > 0 {
      assert s[0] == s[..i][0];
      assert s[1..][..i - 1] == s[..i][1..];
      assert s[1..][i..] == s[i + 1..];
      OccurrencesAfter(s[1..], sep, i - 1);
    }
  }

  /** Joining one more leading part puts a separator after it. */
  lemma {:induction false} JoinCons(p: string, rest: seq<string>, sep: char)
    requires rest != []
    ensures Join([p] + rest, sep) == p + [sep] + Join(rest, sep)
  {
    assert ([p] + rest)[1..] == rest;
  }

  /**
   * SplitN undoes Join: parts of which only the last may hold sep (and not
   * even that one when there are fewer than n) come back out of the joined
   * string exactly.
   */
  lemma {:induction false} SplitNJoin(parts: seq<string>, sep: char, n: nat)
    requires 1 <= |parts| <= n && SeparatorFree(parts, sep, n)
    ensures SplitN(Join(parts, sep), sep, n) == parts
  {
    if |parts| == 1 {
      SplitNJoinOne(parts, sep, n);
    } else {
      TailSeparators(parts, sep, n);
      SplitNJoin(parts[1..], sep, n - 1);
      SplitNJoinCons(parts, sep, n);
    }
  }

  /** Dropping the first part leaves parts separator-free for one part fewer. */
  lemma {:induction false} TailSeparators(parts: seq<string>, sep: char, n: nat)
    requires 2 <= |parts| <= n && SeparatorFree(parts, sep, n)
    ensures sep !in parts[0] && SeparatorFree(parts[1..], sep, n - 1)
  {
    var tail := parts[1..];
    forall i | 0 <= i < |tail| - 1
      ensures sep !in tail[i]
    {
      assert tail[i] == parts[i + 1];
    }
  }

  /** A single part comes back whole, provided it holds no sep when more parts were allowed. */
  lemma {:induction false} SplitNJoinOne(parts: seq<string>, sep: char, n: nat)
    requires |parts| == 1 <= n
    requires 1 < n ==> sep !in parts[0]
    ensures SplitN(Join(parts, sep), sep, n) == parts
  {
    SplitNWhole(parts[0], sep, n);
    assert parts == [parts[0]];
  }

  /** A string without sep, or a split into one part, is its own single part. */
  lemma {:induction false} SplitNWhole(s: string, sep: char, n: nat)
    requires n == 1 || (n > 1 && sep !in s)
    ensures SplitN(s, sep, n) == [s]
  {
  }

  /** A leading part without sep comes back out of the split of the join, ahead of the rest. */
  lemma {:induction false} SplitNJoinCons(parts: seq<string>, sep: char, n: nat)
    requires n > 1 && |parts| >= 2 && sep !in parts[0]
    requires SplitN(Join(parts[1..], sep), sep, n - 1) == parts[1..]
    ensures SplitN(Join(parts, sep), sep, n) == parts
  {
    var p, t := parts[0], Join(parts[1..], sep);
    calc {
      SplitN(Join(parts, sep), sep, n);
      SplitN(p + [sep] + t, sep, n);
      { FindAfter(p, sep, t); SplitNStep(p + [sep] + t, sep, n, |p|); }
      [(p + [sep] + t)[..|p|]] + SplitN((p + [sep] + t)[|p| + 1..], sep, n - 1);
      { Uncut(p, sep, t); }
      [p] + parts[1..];
      parts;
    }
  }

  /** The pieces around position |a| of a + [x] + b are a and b. */
  lemma {:induction false} Uncut<T>(a: seq<T>, x: T, b: seq<T>)
    ensures (a + [x] + b)[..|a|] == a && (a + [x] + b)[|a| + 1..] == b
  {
  }

  /** The first separator of a + [sep] + b, when a holds none, is the one after a. */
  lemma {:induction false} FindAfter(a: string, sep: char, b: string)
    requires sep !in a
    ensures Find(a + [sep] + b, sep) == Some(|a|)
  {
    var s := a + [sep] + b;
    assert s[|a|] == sep;
    assert forall j :: 0 <= j < |a| ==> s[j] == a[j];
    var i := Find(s, sep).value;
    assert forall j :: 0 <= j < i ==> s[..i][j] == s[j];
  }

  lemma {:induction false} JoinTwo(a: string, b: string, sep: char)
    ensures Join([a, b], sep) == a + [sep] + b
  {
    assert [a, b][1..] == [b];
  }

  lemma {:induction false} JoinFour(a: string, b: string, c: string, d: string, sep: char)
    ensures Join([a, b, c, d], sep) == a + [sep] + b + [sep] + c + [sep] + d
  {
    assert [a, b, c, d][1..] == [b, c, d];
    assert [b, c, d][1..] == [c, d];
    JoinTwo(c, d, sep);
  }

  /** The mnemonic the fixtures use for an operation. */
  function OpCode(o: Operation): string
  {
    match o
    case Unknown => ""
    case Insert => "INS"
    case Update => "UPD"
    case Remove => "REM"
  }

  /** The operation a mnemonic names; any other string names none. */
  function ParseOperation(s: string): (r: Option<Operation>)
    ensures r.Some? ==> r.value != Unknown && OpCode(r.value) == s
  {
    if s == "INS" then Some(Insert)
    else if s == "REM" then Some(Remove)
    else if s == "UPD" then Some(Update)
    else None
  }

  /** The three known mnemonics parse back to the operations they name. */
  lemma {:induction false} ParseOpCode(o: Operation)
    requires o != Unknown
    ensures ParseOperation(OpCode(o)) == Some(o)
  {
  }

  /** A string is a known mnemonic exactly when it is the mnemonic of Insert, Update or Remove. */
  lemma {:induction false} ParseOperationKnown(s: string)
    ensures ParseOperation(s).Some? <==> s in {OpCode(Insert), OpCode(Update), OpCode(Remove)}
  {
  }

  /** The UTF-8 encoding of one character: one to four bytes, the first telling the length. */
  function EncodeChar(c: char): (bs: Bytes)
    ensures 1 <= |bs| <= 4
    ensures (c as int < 0x80) <==> |bs| == 1
    ensures c as int < 0x80 ==> bs[0] as int == c as int
  {
    var cp := c as int;
    if cp < 0x80 then [cp as byte]
    else if cp < 0x800 then [(0xC0 + cp / 64) as byte, (0x80 + cp % 64) as byte]
    else if cp < 0x1_0000 then
      [(0xE0 + cp / 4096) as byte, (0x80 + cp / 64 % 64) as byte, (0x80 + cp % 64) as byte]
    else
      [(0xF0 + cp / 262144) as byte, (0x80 + cp / 4096 % 64) as byte,
       (0x80 + cp / 64 % 64) as byte, (0x80 + cp % 64) as byte]
  }

  /** The bytes of a string, as Go's []byte(s) produces them: its UTF-8 encoding. */
  function Utf8(s: string): (bs: Bytes)
    ensures |s| <= |bs| <= 4 * |s|
  {
    if s == [] then [] else Utf8(s[..|s| - 1]) + EncodeChar(s[|s| - 1])
  }

  /** An ASCII string encodes to one byte per character, each the character's code. */
  lemma {:induction false} Utf8Ascii(s: string)
    requires forall i :: 0 <= i < |s| ==> s[i] as int < 0x80
    ensures |Utf8(s)| == |s|
    ensures forall i :: 0 <= i < |s| ==> Utf8(s)[i] as int == s[i] as int
  {
    if s != [] {
      Utf8Ascii(s[..|s| - 1]);
    }
  }

  /** The code point at the start of bs and the number of bytes it takes, if bs starts with a well-formed sequence. */
  function DecodeChar(bs: Bytes): Option<(int, nat)>
  {
    if bs == [] then None
    else
      var b0 := bs[0] as int;
      if b0 < 0x80 then Some((b0, 1))
      else if b0 < 0xC0 || |bs| < 2 then None
      else if b0 < 0xE0 then Some(((b0 - 0xC0) * 64 + (bs[1] as int - 0x80), 2))
      else if |bs| < 3 then None
      else if b0 < 0xF0 then
        Some(((b0 - 0xE0) * 4096 + (bs[1] as int - 0x80) * 64 + (bs[2] as int - 0x80), 3))
      else if |bs| < 4 then None
      else
        Some(((b0 - 0xF0) * 262144 + (bs[1] as int - 0x80) * 4096
              + (bs[2] as int - 0x80) * 64 + (bs[3] as int - 0x80), 4))
  }

  /** Decoding the encoding of a character, whatever follows, gives the character back with its length. */
  lemma {:induction false} DecodeEncodeChar(c: char, rest: Bytes)
    ensures DecodeChar(EncodeChar(c) + rest) == Some((c as int, |EncodeChar(c)|))
  {
    var cp := c as int;
    assert cp == cp / 64 * 64 + cp % 64;
    assert cp / 64 == cp / 4096 * 64 + cp / 64 % 64;
    assert cp / 4096 == cp / 262144 * 64 + cp / 4096 % 64;
  }

  /** Encoding distributes over concatenation. */
  lemma {:induction false} Utf8Append(a: string, b: string)
    ensures Utf8(a + b) == Utf8(a) + Utf8(b)
  {
    if b != [] {
      var b', c := b[..|b| - 1], b[|b| - 1];
      assert b == b' + [c];
      assert (a + b)[..|a + b| - 1] == a + b';
      Utf8Append(a, b');
    } else {
      assert a + b == a;
    }
  }

  /**
   * The testDBOp fixture: a row event from an operation mnemonic, a
   * "code/scope/table/key" path and "old/new" payer and data strings. The
   * fixture panics on a path with fewer than four parts, a payer or data
   * string with no '/', and an unknown mnemonic; all of these give None.
   */
  function TestDbOp(op: string, path: string, payers: string, datas: string): (r: Option<DbOp>)
    ensures r.Some? <==>
      ParseOperation(op).Some? && Occurrences(path, '/') >= 3 &&
      Occurrences(payers, '/') >= 1 && Occurrences(datas, '/') >= 1
    ensures r.Some? ==> r.value.operation != Unknown && OpCode(r.value.operation) == op
  {
    SplitNCount(path, '/', 4);
    SplitNCount(payers, '/', 2);
    SplitNCount(datas, '/', 2);
    var chunks, payerChunks, dataChunks := SplitN(path, '/', 4), SplitN(payers, '/', 2), SplitN(datas, '/', 2);
    if |chunks| < 4 || |payerChunks| < 2 || |dataChunks| < 2 then None
    else match ParseOperation(op)
      case None => None
      case Some(o) =>
        Some(DbOp(o, chunks[0], chunks[1], chunks[2], chunks[3],
                  payerChunks[0], payerChunks[1], Utf8(dataChunks[0]), Utf8(dataChunks[1])))
  }

  /**
   * The fixture reads back what it was written with: names without '/' (the
   * primary key, new payer and new data may hold one) come out as the
   * event's fields, with the data as its UTF-8 bytes.
   */
  lemma {:induction false} TestDbOpFields(o: Operation, code: Name, scope: Name, table: Name, key: Name,
                       oldPayer: Name, newPayer: Name, oldData: string, newData: string)
    requires o != Unknown
    requires '/' !in code && '/' !in scope && '/' !in table && '/' !in oldPayer && '/' !in oldData
    ensures TestDbOp(OpCode(o), code + "/" + scope + "/" + table + "/" + key, oldPayer + "/" + newPayer, oldData + "/" + newData)
      == Some(DbOp(o, code, scope, table, key, oldPayer, newPayer, Utf8(oldData), Utf8(newData)))
  {
    PathParts(code, scope, table, key);
    PairParts(oldPayer, newPayer);
    PairParts(oldData, newData);
    ParseOpCode(o);
  }

  lemma {:induction false} PathParts(code: string, scope: string, table: string, key: string)
    requires '/' !in code && '/' !in scope && '/' !in table
    ensures SplitN(code + "/" + scope + "/" + table + "/" + key, '/', 4) == [code, scope, table, key]
  {
    var parts := [code, scope, table, key];
    assert SeparatorFree(parts, '/', 4) by {
      assert parts[0] == code && parts[1] == scope && parts[2] == table;
    }
    JoinFour(code, scope, table, key, '/');
    SplitNJoin(parts, '/', 4);
  }

  lemma {:induction false} PairParts(a: string, b: string)
    requires '/' !in a
    ensures SplitN(a + "/" + b, '/', 2) == [a, b]
  {
    assert SeparatorFree([a, b], '/', 2) by {
      assert [a, b][0] == a;
    }
    JoinTwo(a, b, '/');
    SplitNJoin([a, b], '/', 2);
  }

  /** The operation of a permission-event mnemonic; newPermOp leaves unknown mnemonics as Unknown. */
  function PermOperation(s: string): (o: Operation)
    ensures o == Unknown <==> ParseOperation(s).None?
  {
    match ParseOperation(s)
    case None => Unknown
    case Some(o) => o
  }

  /** The newPermOp fixture: a permission event with the given snapshots. */
  function NewPermOp(operation: string, oldPerm: Option<PermissionObject>, newPerm: Option<PermissionObject>): (e: PermOp)
    ensures e.oldPerm == oldPerm && e.newPerm == newPerm
    ensures e.operation == Unknown <==> ParseOperation(operation).None?
    ensures e.operation != Unknown ==> OpCode(e.operation) == operation
  {
    PermOp(PermOperation(operation), oldPerm, newPerm)
  }

  /**
   * The newPermOpData fixture: a snapshot of permission of account whose
   * authority holds one key per public key, in order.
   */
  method NewPermOpData(account: Name, permission: Name, publicKeys: seq<string>) returns (p: PermissionObject)
    ensures p.owner == account && p.name == permission
    ensures |p.keys| == |publicKeys|
    ensures forall i :: 0 <= i < |publicKeys| ==> p.keys[i].publicKey == publicKeys[i]
  {
    var authKeys := new KeyWeight[|publicKeys|];
    for i := 0 to |publicKeys|
      invariant forall j :: 0 <= j < i ==> authKeys[j].publicKey == publicKeys[j]
    {
      authKeys[i] := KeyWeight(publicKeys[i]);
    }
    p := PermissionObject(account, permission, authKeys[..]);
  }
}
