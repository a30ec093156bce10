/**
 * The playlist of a slider: an ordered sequence of media URLs that the slider
 * edits in place, and the wrapping cursor behind its `current` getter.
 */
module Playlist {
  import opened Wrappers

  // ---------------------------------------------------------------------------
  // Indexed edits (`get`, `set`, `add`, `insert`, `delete`)
  // ---------------------------------------------------------------------------

  /** `children[idx]`: the item at `idx`, or nothing outside the playlist. */
  function Lookup(s: seq<string>, idx: int): (r: Option<string>)
    ensures r.Some? <==> 0 <= idx < |s|
    ensures r.Some? ==> r.value == s[idx]
  {
    if 0 <= idx < |s| then Some(s[idx]) else None
  }

  /** `children[idx] = url` for an index inside the playlist. */
  function Replace(s: seq<string>, idx: nat, url: string): (r: seq<string>)
    requires idx < |s|
    ensures |r| == |s|
    ensures r[idx] == url
    ensures forall j :: 0 <= j < |s| && j != idx ==> r[j] == s[j]
  {
    s[idx := url]
  }

  /** `children.push(url)`. */
  function Append(s: seq<string>, url: string): (r: seq<string>)
    ensures |r| == |s| + 1
    ensures r[..|s|] == s && r[|s|] == url
  {
    s + [url]
  }

  /** `children.splice(idx, 0, url)`: `url` lands at `idx`, later items move one place right. */
  function Insert(s: seq<string>, idx: nat, url: string): (r: seq<string>)
    requires idx <= |s|
    ensures |r| == |s| + 1
    ensures r[idx] == url
    ensures forall j :: 0 <= j < idx ==> r[j] == s[j]
    ensures forall j :: idx < j < |r| ==> r[j] == s[j - 1]
  {
    s[..idx] + [url] + s[idx..]
  }

  /** `children.splice(idx, 1)`: the item at `idx` goes, later items move one place left. */
  function Remove(s: seq<string>, idx: nat): (r: seq<string>)
    requires idx < |s|
    ensures |r| == |s| - 1
    ensures forall j :: 0 <= j < idx ==> r[j] == s[j]
    ensures forall j :: idx <= j < |r| ==> r[j] == s[j + 1]
  {
    s[..idx] + s[idx + 1..]
  }

  /** Reading back what `set` wrote gives `url`; every other index reads as before. */
  lemma LookupAfterReplace(s: seq<string>, idx: nat, url: string, j: int)
    requires idx < |s|
    ensures Lookup(Replace(s, idx, url), j) == if j == idx then Some(url) else Lookup(s, j)
  {
  }

  /** `add` is an insertion at the end of the playlist, whatever index it is given. */
  lemma AppendIsInsertAtEnd(s: seq<string>, url: string)
    ensures Append(s, url) == Insert(s, |s|, url)
  {
  }

  /** `delete(idx)` undoes `insert(idx, url)`. */
  lemma RemoveUndoesInsert(s: seq<string>, idx: nat, url: string)
    requires idx <= |s|
    ensures Remove(Insert(s, idx, url), idx) == s
  {
  }

  /** Re-inserting a deleted item where it was restores the playlist. */
  lemma InsertUndoesRemove(s: seq<string>, idx: nat)
    requires idx < |s|
    ensures Insert(Remove(s, idx), idx, s[idx]) == s
  {
  }

  // ---------------------------------------------------------------------------
  // The wrapping cursor (`current`)
  // ---------------------------------------------------------------------------

  /** The index `current` reads at: a cursor at or past the end is first reset to 0. */
  function ReadIndex(n: nat, c: nat): (r: nat)
    ensures n > 0 ==> r < n
    ensures c < n ==> r == c
    ensures c >= n ==> r == 0
  {
    if c >= n then 0 else c
  }

  /** The cursor `current` leaves behind: one past the index read, wrapping to 0. */
  function NextCursor(n: nat, c: nat): (r: nat)
    ensures n == 0 ==> r == 0
    ensures n > 0 ==> r < n && r == (ReadIndex(n, c) + 1) % n
  {
    var next := ReadIndex(n, c) + 1;
    if next >= n then 0 else next
  }

  /** The item `current` returns: nothing (JavaScript's `undefined`) on an empty playlist. */
  function ItemAt(s: seq<string>, c: nat): (r: Option<string>)
    ensures r.Some? <==> |s| > 0
    ensures r.Some? ==> r.value == s[ReadIndex(|s|, c)]
  {
    if |s| == 0 then None else Some(s[ReadIndex(|s|, c)])
  }

  /** The cursor after `k` consecutive reads of `current`, starting from `c`. */
  function CursorAfter(n: nat, c: nat, k: nat): nat
  {
    if k == 0 then c else NextCursor(n, CursorAfter(n, c, k - 1))
  }

  /** The items yielded by `k` consecutive reads of `current`, starting from `c`. */
  function Served(s: seq<string>, c: nat, k: nat): (r: seq<string>)
    requires |s| > 0
    ensures |r| == k
    ensures k > 0 ==> r[0] == s[ReadIndex(|s|, c)]
    decreases k
  {
    if k == 0 then [] else [s[ReadIndex(|s|, c)]] + Served(s, NextCursor(|s|, c), k - 1)
  }

  // Modular arithmetic used by the cursor lemmas: Dafny's `%` with a variable
  // divisor needs the quotient spelled out.

  lemma MulAtLeast(a: int, n: int)
    requires a >= 1 && n > 0
    ensures a * n >= n
  {
    assert a * n == (a - 1) * n + n;
    if a > 1 { MulAtLeast(a - 1, n); }
  }

  lemma ModUnique(x: int, n: int, q: int, r: int)
    requires n > 0 && 0 <= r < n && x == q * n + r
    ensures x % n == r
  {
    var q', r' := x / n, x % n;
    assert x == q' * n + r';
    assert (q' - q) * n == r - r';
    if q' > q { MulAtLeast(q' - q, n); }
    if q' < q { MulAtLeast(q - q', n); }
  }

  lemma ModShift(a: int, b: int, n: int)
    requires n > 0
    ensures (a % n + b) % n == (a + b) % n
  {
    var q, t := a / n, a % n + b;
    assert a == q * n + a % n;
    var q2 := t / n;
    assert t == q2 * n + t % n;
    assert a + b == (q + q2) * n + t % n;
    ModUnique(a + b, n, q + q2, t % n);
  }

  /** Each read moves the cursor one place on, modulo the playlist's length. */
  lemma {:induction false} CursorAfterReads(n: nat, c: nat, k: nat)
    requires n > 0
    ensures ReadIndex(n, CursorAfter(n, c, k)) == (ReadIndex(n, c) + k) % n
  {
    if k > 0 {
      var r, prev := ReadIndex(n, c), CursorAfter(n, c, k - 1);
      CursorAfterReads(n, c, k - 1);
      var next := NextCursor(n, prev);
      assert ReadIndex(n, next) == next == ((r + k - 1) % n + 1) % n;
      ModShift(r + k - 1, 1, n);
    }
  }

  /** The `j`-th of `k` consecutive reads yields the item `j` places after the first one read. */
  lemma {:induction false} ServedAt(s: seq<string>, c: nat, k: nat, j: nat)
    requires |s| > 0 && j < k
    ensures Served(s, c, k)[j] == s[(ReadIndex(|s|, c) + j) % |s|]
    decreases k
  {
    var n, r := |s|, ReadIndex(|s|, c);
    if j == 0 {
      ModUnique(r, n, 0, r);
    } else {
      ServedAt(s, NextCursor(n, c), k - 1, j - 1);
      ModShift(r + 1, j - 1, n);
    }
  }

  /** Index `j` of the playlist rotated to start at `r` is the item `j` places after `r`, wrapping. */
  lemma RotatedAt(s: seq<string>, r: nat, j: nat)
    requires r < |s| && j < |s|
    ensures (s[r..] + s[..r])[j] == s[(r + j) % |s|]
  {
    if r + j < |s| {
      ModUnique(r + j, |s|, 0, r + j);
    } else {
      ModUnique(r + j, |s|, 1, r + j - |s|);
    }
  }

  /** A rotation holds the same items as the playlist, each as often. */
  lemma RotationSameItems(s: seq<string>, r: nat)
    requires r <= |s|
    ensures multiset(s[r..] + s[..r]) == multiset(s)
  {
    assert s == s[..r] + s[r..];
  }

  /**
   * One round of `length` reads yields the playlist rotated to start at the
   * cursor: every item exactly once, in order.
   */
  lemma {:induction false} OneRoundIsRotation(s: seq<string>, c: nat)
    requires |s| > 0
    ensures var r := ReadIndex(|s|, c);
            Served(s, c, |s|) == s[r..] + s[..r]
    ensures multiset(Served(s, c, |s|)) == multiset(s)
  {
    var n, r := |s|, ReadIndex(|s|, c);
    var round, rot := Served(s, c, n), s[r..] + s[..r];
    forall j | 0 <= j < n
      ensures round[j] == rot[j]
    {
      ServedAt(s, c, n, j);
      RotatedAt(s, r, j);
    }
    assert round == rot;
    RotationSameItems(s, r);
  }

  /** After a full round of reads, `current` is back at the item it started from. */
  lemma FullRoundReturns(n: nat, c: nat)
    requires n > 0
    ensures ReadIndex(n, CursorAfter(n, c, n)) == ReadIndex(n, c)
  {
    CursorAfterReads(n, c, n);
    ModUnique(ReadIndex(n, c) + n, n, 1, ReadIndex(n, c));
  }

  /**
   * The construction loads the first two reads into the buffers, so with an
   * untouched playlist of `n` items the `k`-th completed transition (k >= 1)
   * performs read number `k + 1` and loads item `(k + 1) mod n`.
   */
  lemma PreloadSchedule(s: seq<string>, k: nat)
    requires |s| > 0 && k >= 1
    ensures ItemAt(s, CursorAfter(|s|, 0, k + 1)) == Some(s[(k + 1) % |s|])
  {
    CursorAfterReads(|s|, 0, k + 1);
  }

  /** Construction reads items 0 and `1 mod n` and leaves the cursor at `2 mod n`. */
  lemma BuildReads(s: seq<string>)
    requires |s| > 0
    ensures ItemAt(s, 0) == Some(s[0])
    ensures ItemAt(s, CursorAfter(|s|, 0, 1)) == Some(s[1 % |s|])
    ensures CursorAfter(|s|, 0, 2) == 2 % |s|
  {
    CursorAfterReads(|s|, 0, 1);
    CursorAfterReads(|s|, 0, 2);
  }

  /**
   * Edits do not move the cursor: an insertion before it makes the next read
   * repeat the item just before the cursor.
   */
  lemma InsertBeforeCursorRepeats(s: seq<string>, idx: nat, url: string, c: nat)
    requires idx < c < |s|
    ensures ItemAt(Insert(s, idx, url), c) == Some(s[c - 1])
  {
  }

  /** A deletion before the cursor makes the next read skip the item at the cursor. */
  lemma RemoveBeforeCursorSkips(s: seq<string>, idx: nat, c: nat)
    requires idx < c && c + 1 < |s|
    ensures ItemAt(Remove(s, idx), c) == Some(s[c + 1])
  {
  }
}
