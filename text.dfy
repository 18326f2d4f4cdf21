/** The string handling the exporter relies on: splitting a comma-separated
    account list (Go's strings.Split), dropping its empty entries, checking a
    chain of required fields, and parsing the poll interval (Go's strconv.Atoi
    on a 64-bit platform). */
module Text {
  import opened Wrappers

  // ---------------------------------------------------------------------------
  // Splitting and joining

  /** strings.Split(s, [sep]): the pieces between separators, in order. There is
      always at least one piece, so the empty string splits into [""]. */
  function Split(s: string, sep: char): (parts: seq<string>)
    ensures |parts| >= 1
  {
    if s == [] then [""]
    else
      var rest := Split(s[1..], sep);
      if s[0] == sep then [""] + rest
      else [[s[0]] + rest[0]] + rest[1..]
  }

  /** strings.Join(parts, [sep]), the inverse of Split. */
  function Join(parts: seq<string>, sep: char): string
    requires |parts| >= 1
  {
    if |parts| == 1 then parts[0] else parts[0] + [sep] + Join(parts[1..], sep)
  }

  /** Joining a split string gives the string back. */
  lemma {:induction false} JoinSplit(s: string, sep: char)
    ensures Join(Split(s, sep), sep) == s
  {
    if s != [] {
      JoinSplit(s[1..], sep);
      var rest := Split(s[1..], sep);
      if s[0] == sep {
        assert ([""] + rest)[1..] == rest;
      } else {
        var parts := [[s[0]] + rest[0]] + rest[1..];
        assert parts[1..] == rest[1..];
        if |rest| == 1 {
          assert Join(parts, sep) == [s[0]] + rest[0];
        } else {
          assert Join(rest, sep) == rest[0] + [sep] + Join(rest[1..], sep);
          assert Join(parts, sep) == [s[0]] + (rest[0] + [sep] + Join(rest[1..], sep));
        }
        assert s == [s[0]] + s[1..];
      }
    }
  }

  /** No piece of a split contains the separator. */
  lemma {:induction false} SplitPiecesFree(s: string, sep: char)
    ensures forall i :: 0 <= i < |Split(s, sep)| ==> sep !in Split(s, sep)[i]
  {
    if s != [] {
      SplitPiecesFree(s[1..], sep);
      var rest := Split(s[1..], sep);
      if s[0] != sep {
        var parts := [[s[0]] + rest[0]] + rest[1..];
        assert forall i :: 1 <= i < |parts| ==> parts[i] == rest[i];
      } else {
        assert forall i :: 1 <= i < |rest| + 1 ==> ([""] + rest)[i] == rest[i - 1];
      }
    }
  }

  /** A string without the separator splits into itself, and a separator after
      such a string closes the first piece. */
  lemma {:induction false} SplitFirstPiece(a: string, b: string, sep: char)
    requires sep !in a
    ensures Split(a, sep) == [a]
    ensures Split(a + [sep] + b, sep) == [a] + Split(b, sep)
  {
    if a == [] {
      assert [] + [sep] + b == [sep] + b;
      assert ([sep] + b)[1..] == b;
    } else {
      SplitFirstPiece(a[1..], b, sep);
      assert (a + [sep] + b)[1..] == a[1..] + [sep] + b;
      assert [a[0]] + a[1..] == a;
      var rest := Split(a[1..] + [sep] + b, sep);
      assert rest == [a[1..]] + Split(b, sep);
    }
  }

  /** Splitting a joined list of separator-free pieces gives the pieces back. */
  lemma {:induction false} SplitJoin(parts: seq<string>, sep: char)
    requires |parts| >= 1
    requires forall i :: 0 <= i < |parts| ==> sep !in parts[i]
    ensures Split(Join(parts, sep), sep) == parts
  {
    if |parts| == 1 {
      SplitFirstPiece(parts[0], [], sep);
    } else {
      SplitJoin(parts[1..], sep);
      SplitFirstPiece(parts[0], Join(parts[1..], sep), sep);
      assert [parts[0]] + parts[1..] == parts;
    }
  }

  /** The pieces that are not empty, in their original order (the `continue` on
      an empty entry of the start-up loops). */
  function NonEmpty(parts: seq<string>): (r: seq<string>)
    ensures |r| <= |parts|
  {
    if parts == [] then []
    else NonEmpty(parts[..|parts| - 1]) + (if parts[|parts| - 1] == "" then [] else [parts[|parts| - 1]])
  }

  /** NonEmpty keeps exactly the non-empty pieces. */
  lemma {:induction false} NonEmptyMembers(parts: seq<string>)
    ensures forall x :: x in NonEmpty(parts) <==> x in parts && x != ""
  {
    if parts != [] {
      var n := |parts| - 1;
      NonEmptyMembers(parts[..n]);
      assert parts == parts[..n] + [parts[n]];
    }
  }

  /** Filtering a prefix of the pieces gives a prefix of the filtered pieces. */
  lemma {:induction false} NonEmptyPrefix(parts: seq<string>, i: nat)
    requires i <= |parts|
    ensures NonEmpty(parts[..i]) <= NonEmpty(parts)
    decreases |parts|
  {
    if i < |parts| {
      var n := |parts| - 1;
      assert parts[..n][..i] == parts[..i];
      NonEmptyPrefix(parts[..n], i);
    } else {
      assert parts[..i] == parts;
    }
  }

  /** One more piece of the list: the filtered prefix grows by that piece
      exactly when it is not empty, and then the piece is the next entry of the
      whole filtered list. */
  lemma {:induction false} NonEmptyStep(parts: seq<string>, i: nat, j: nat)
    requires i < |parts| && j <= |NonEmpty(parts)|
    requires NonEmpty(parts[..i]) == NonEmpty(parts)[..j]
    ensures parts[i] == "" ==> NonEmpty(parts[..i + 1]) == NonEmpty(parts)[..j]
    ensures parts[i] != "" ==>
              && j < |NonEmpty(parts)| && NonEmpty(parts)[j] == parts[i]
              && NonEmpty(parts[..i + 1]) == NonEmpty(parts)[..j + 1]
  {
    assert parts[..i + 1][..i] == parts[..i];
    NonEmptyPrefix(parts, i + 1);
    if parts[i] != "" {
      assert NonEmpty(parts[..i + 1]) == NonEmpty(parts)[..j] + [parts[i]];
      assert NonEmpty(parts[..i + 1])[j] == parts[i];
    }
  }

  /** The accounts named by a comma-separated list: its non-empty entries in order. */
  function Entries(list: string): (accounts: seq<string>)
    ensures list == "" ==> accounts == []
  {
    NonEmpty(Split(list, ','))
  }

  /** An unset (defaulted to "") or empty account list names no account. */
  lemma EmptyListHasNoEntries()
    ensures Split("", ',') == [""]
    ensures Entries("") == []
  {
  }

  /** Every entry is non-empty and free of commas, and occurs in the list. */
  lemma EntriesAreAccounts(list: string)
    ensures forall x :: x in Entries(list) ==> x != "" && ',' !in x && x in Split(list, ',')
  {
    NonEmptyMembers(Split(list, ','));
    SplitPiecesFree(list, ',');
  }

  predicate Distinct(xs: seq<string>)
  {
    forall i, j :: 0 <= i < j < |xs| ==> xs[i] != xs[j]
  }

  // ---------------------------------------------------------------------------
  // Substrings, for statements about error messages

  /** `sub` occurs somewhere in `s`. */
  predicate Contains(s: string, sub: string)
  {
    |sub| <= |s| && (s[..|sub|] == sub || (s != [] && Contains(s[1..], sub)))
  }

  lemma {:induction false} ContainsMiddle(a: string, sub: string, b: string)
    ensures Contains(a + sub + b, sub)
  {
    if a == [] {
      assert (a + sub + b)[..|sub|] == sub;
    } else {
      ContainsMiddle(a[1..], sub, b);
      assert (a + sub + b)[1..] == a[1..] + sub + b;
    }
  }

  // ---------------------------------------------------------------------------
  // A chain of required fields

  /** The error of the first empty field, or None when all are filled in. */
  function FirstEmpty(fields: seq<string>, errors: seq<string>): (r: Option<string>)
    requires |fields| == |errors|
    ensures r.Some? ==> r.value in errors
  {
    if fields == [] then None
    else if fields[0] == "" then Some(errors[0])
    else FirstEmpty(fields[1..], errors[1..])
  }

  /** FirstEmpty reports nothing exactly when every field is filled in, and
      otherwise the error paired with the earliest empty field. */
  lemma {:induction false} FirstEmptySpec(fields: seq<string>, errors: seq<string>)
    requires |fields| == |errors|
    ensures FirstEmpty(fields, errors).None? <==> forall i :: 0 <= i < |fields| ==> fields[i] != ""
    ensures FirstEmpty(fields, errors).Some? ==>
      exists k :: 0 <= k < |fields| && fields[k] == "" && FirstEmpty(fields, errors).value == errors[k]
                  && forall j :: 0 <= j < k ==> fields[j] != ""
  {
    if fields != [] && fields[0] != "" {
      FirstEmptySpec(fields[1..], errors[1..]);
      assert forall i :: 1 <= i < |fields| ==> fields[i] == fields[1..][i - 1];
      if FirstEmpty(fields[1..], errors[1..]).Some? {
        var k :| 0 <= k < |fields| - 1 && fields[1..][k] == "" && FirstEmpty(fields[1..], errors[1..]).value == errors[1..][k]
                 && forall j :: 0 <= j < k ==> fields[1..][j] != "";
        assert fields[k + 1] == "" && FirstEmpty(fields, errors).value == errors[k + 1];
      }
    }
  }

  // ---------------------------------------------------------------------------
  // strconv.Atoi

  const MinInt: int := -0x8000_0000_0000_0000
  const MaxInt: int := 0x7fff_ffff_ffff_ffff

  predicate IsDigit(c: char)
  {
    '0' <= c <= '9'
  }

  predicate AllDigits(s: string)
  {
    forall i :: 0 <= i < |s| ==> IsDigit(s[i])
  }

  /** The value of a string of decimal digits (leading zeros allowed). */
  function DigitsValue(s: string): nat
    requires AllDigits(s)
  {
    if s == [] then 0 else 10 * DigitsValue(s[..|s| - 1]) + (s[|s| - 1] as int - '0' as int)
  }

  /** strconv.Atoi: an optional '+' or '-' followed by one or more decimal digits
      whose value fits a 64-bit int; anything else is an error (None). */
  function Atoi(s: string): (r: Option<int>)
    ensures r.Some? ==> MinInt <= r.value <= MaxInt
  {
    var negative := |s| > 0 && s[0] == '-';
    var digits := if |s| > 0 && (s[0] == '-' || s[0] == '+') then s[1..] else s;
    if digits == [] || !AllDigits(digits) then None
    else
      var v: int := if negative then -(DigitsValue(digits) as int) else DigitsValue(digits);
      if MinInt <= v <= MaxInt then Some(v) else None
  }

  /** The decimal digits of a natural number, without leading zeros. */
  function Digits(n: nat): (s: string)
    ensures s != [] && AllDigits(s)
  {
    if n < 10 then [('0' as int + n) as char] else Digits(n / 10) + [('0' as int + n % 10) as char]
  }

  /** strconv.Itoa: the decimal form of an integer. */
  function Itoa(n: int): string
  {
    if n < 0 then "-" + Digits(-n) else Digits(n)
  }

  lemma {:induction false} DigitsValueOfDigits(n: nat)
    ensures DigitsValue(Digits(n)) == n
  {
    if n >= 10 {
      DigitsValueOfDigits(n / 10);
      var s := Digits(n);
      assert s[..|s| - 1] == Digits(n / 10);
    }
  }

  /** Atoi reads back every 64-bit integer written by Itoa. */
  lemma AtoiItoa(n: int)
    requires MinInt <= n <= MaxInt
    ensures Atoi(Itoa(n)) == Some(n)
  {
    if n < 0 {
      DigitsValueOfDigits(-n);
      assert ("-" + Digits(-n))[1..] == Digits(-n);
    } else {
      DigitsValueOfDigits(n);
    }
  }

  /** Empty and non-numeric interval settings are errors; the default parses to 300. */
  lemma AtoiExamples()
    ensures Atoi("") == None
    ensures Atoi("-") == None
    ensures Atoi("5m") == None
    ensures Atoi("300") == Some(300)
  {
    assert !AllDigits("5m") by { assert !IsDigit("5m"[1]); }
    assert "300"[..2] == "30" && "30"[..1] == "3" && "3"[..0] == "";
  }
}
