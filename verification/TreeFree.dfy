/** The blocks below a position, for truncation. */
module TreeFree {
  import opened Blocks
  import opened Tree

  /** Every block reachable from position p, its own block included. */
  ghost function Under(f: Forest, p: Path): (u: set<nat>)
    requires Shaped(f) && Valid(|f.addrs|, p)
    decreases Height(p), 0, NINDIRECT + 1
  {
    HeightBound(|f.addrs|, p);
    if Ptr(f, p) == 0 then {}
    else if Height(p) == 0 then {Ptr(f, p) as nat}
    else UnderEntries(f, p, NINDIRECT) + {Ptr(f, p) as nat}
  }

  /** Every block reachable through the first j entries of the index block at p. */
  ghost function UnderEntries(f: Forest, p: Path, j: nat): (u: set<nat>)
    requires Shaped(f) && Valid(|f.addrs|, p) && Height(p) > 0 && j <= NINDIRECT
    decreases Height(p), 0, j
  {
    HeightBound(|f.addrs|, p);
    if j == 0 then {}
    else UnderEntries(f, p, j - 1) + Under(f, Entry(p, j - 1))
  }

  /** Every block reachable through the first r slots of inode ip. */
  ghost function UnderSlots(f: Forest, ip: nat, r: nat): (u: set<nat>)
    requires Shaped(f) && ip < |f.addrs| && r <= NSLOTS
  {
    if r == 0 then {} else UnderSlots(f, ip, r - 1) + Under(f, Slot(ip, r - 1))
  }

  // ---- Under(p) is exactly the pointers at positions at or below p ----

  lemma {:induction false} UnderWitness(f: Forest, p: Path, b: nat) returns (s: Path)
    requires Shaped(f) && Valid(|f.addrs|, p) && b in Under(f, p)
    ensures Valid(|f.addrs|, s) && OnPath(p, s) && Ptr(f, s) == b && b != 0
    decreases Height(p), 0, NINDIRECT + 1
  {
    HeightBound(|f.addrs|, p);
    if Ptr(f, p) == b {
      s := p;
    } else {
      var i;
      i, s := EntriesWitness(f, p, NINDIRECT, b);
      ParentOnPath(p, i, s);
    }
  }

  lemma {:induction false} EntriesWitness(f: Forest, p: Path, j: nat, b: nat) returns (i: nat, s: Path)
    requires Shaped(f) && Valid(|f.addrs|, p) && Height(p) > 0 && j <= NINDIRECT && b in UnderEntries(f, p, j)
    ensures i < j && Valid(|f.addrs|, s) && OnPath(Entry(p, i), s) && Ptr(f, s) == b && b != 0
    decreases Height(p), 0, j
  {
    HeightBound(|f.addrs|, p);
    if b in Under(f, Entry(p, j - 1)) {
      i := j - 1;
      s := UnderWitness(f, Entry(p, j - 1), b);
    } else {
      i, s := EntriesWitness(f, p, j - 1, b);
    }
  }

  lemma {:induction false} EntryIsUnder(f: Forest, p: Path, j: nat, i: nat)
    requires Shaped(f) && Valid(|f.addrs|, p) && Height(p) > 0 && i < j <= NINDIRECT
    ensures Under(f, Entry(p, i)) <= UnderEntries(f, p, j)
    decreases j
  {
    if i < j - 1 {
      EntryIsUnder(f, p, j - 1, i);
    }
  }

  /** The pointers at an index block's entries are inside the subtree of that block. */
  lemma {:induction false} ChildIsUnder(f: Forest, p: Path, i: nat)
    requires Shaped(f) && Valid(|f.addrs|, p) && Height(p) > 0 && i < NINDIRECT && Ptr(f, p) != 0
    ensures Under(f, Entry(p, i)) <= Under(f, p)
  {
    EntryIsUnder(f, p, NINDIRECT, i);
  }

  lemma {:induction false} UnderAll(f: Forest, p: Path, s: Path)
    requires Shaped(f) && Valid(|f.addrs|, p) && Valid(|f.addrs|, s) && OnPath(p, s) && Ptr(f, s) != 0
    ensures (Ptr(f, s) as nat) in Under(f, p)
    ensures Under(f, s) <= Under(f, p)
    decreases s
  {
    if s == p {
      HeightBound(|f.addrs|, p);
    } else {
      var q := s.node;
      assert Ptr(f, q) != 0;
      UnderAll(f, p, q);
      ChildIsUnder(f, q, s.i);
      HeightBound(|f.addrs|, s);
    }
  }

  // ---- Disjointness ----

  function Length(p: Path): nat {
    match p
    case Slot(_, _) => 0
    case Entry(q, _) => 1 + Length(q)
  }

  lemma {:induction false} OnPathLength(a: Path, s: Path)
    requires OnPath(a, s)
    ensures Length(a) <= Length(s) && (Length(a) == Length(s) ==> a == s)
    ensures Owner(a) == Owner(s) && SlotOf(a) == SlotOf(s)
  {
    if a != s {
      OnPathLength(a, s.node);
    }
  }

  /** A position has one ancestor of each length. */
  lemma {:induction false} AncestorUnique(a: Path, b: Path, s: Path)
    requires OnPath(a, s) && OnPath(b, s) && Length(a) == Length(b)
    ensures a == b
  {
    if a == s {
      OnPathLength(b, s);
    } else if b == s {
      OnPathLength(a, s);
    } else {
      AncestorUnique(a, b, s.node);
    }
  }

  /** Two positions above a third are one above the other. */
  lemma {:induction false} AncestorsComparable(p: Path, q: Path, s: Path)
    requires OnPath(p, s) && OnPath(q, s)
    ensures OnPath(p, q) || OnPath(q, p)
  {
    if p != s && q != s {
      AncestorsComparable(p, q, s.node);
    }
  }

  /** Subtrees at positions of which neither is above the other share no block. */
  lemma {:induction false} UnderDisjoint(f: Forest, lo: nat, p: Path, q: Path)
    requires WF(f, lo) && Valid(|f.addrs|, p) && Valid(|f.addrs|, q) && !OnPath(p, q) && !OnPath(q, p)
    ensures Under(f, p) !! Under(f, q)
  {
    forall b | b in Under(f, p) && b in Under(f, q) ensures false {
      var s := UnderWitness(f, p, b);
      var t := UnderWitness(f, q, b);
      assert Apart(f, s, t);
      AncestorsComparable(p, q, s);
    }
  }

  lemma {:induction false} EntriesDisjoint(f: Forest, lo: nat, p: Path, j: nat)
    requires WF(f, lo) && Valid(|f.addrs|, p) && Height(p) > 0 && j < NINDIRECT
    ensures UnderEntries(f, p, j) !! Under(f, Entry(p, j))
  {
    forall b | b in UnderEntries(f, p, j) && b in Under(f, Entry(p, j)) ensures false {
      var i, s := EntriesWitness(f, p, j, b);
      var t := UnderWitness(f, Entry(p, j), b);
      assert Apart(f, s, t);
      AncestorUnique(Entry(p, i), Entry(p, j), s);
    }
  }

  /** An index block is not below itself. */
  lemma {:induction false} EntriesExcludeSelf(f: Forest, lo: nat, p: Path)
    requires WF(f, lo) && Valid(|f.addrs|, p) && Height(p) > 0 && Ptr(f, p) != 0
    ensures (Ptr(f, p) as nat) !in UnderEntries(f, p, NINDIRECT)
  {
    if (Ptr(f, p) as nat) in UnderEntries(f, p, NINDIRECT) {
      var i, s := EntriesWitness(f, p, NINDIRECT, Ptr(f, p));
      assert Apart(f, s, p);
      OnPathLength(Entry(p, i), s);
    }
  }

  lemma {:induction false} SlotsWitness(f: Forest, ip: nat, r: nat, b: nat) returns (s: Path)
    requires Shaped(f) && ip < |f.addrs| && r <= NSLOTS && b in UnderSlots(f, ip, r)
    ensures Valid(|f.addrs|, s) && Owner(s) == ip && SlotOf(s) < r && Ptr(f, s) == b && b != 0
  {
    if b in Under(f, Slot(ip, r - 1)) {
      s := UnderWitness(f, Slot(ip, r - 1), b);
      OnPathLength(Slot(ip, r - 1), s);
    } else {
      s := SlotsWitness(f, ip, r - 1, b);
    }
  }

  lemma {:induction false} SlotsDisjoint(f: Forest, lo: nat, ip: nat, r: nat)
    requires WF(f, lo) && ip < |f.addrs| && r < NSLOTS
    ensures UnderSlots(f, ip, r) !! Under(f, Slot(ip, r))
  {
    forall b | b in UnderSlots(f, ip, r) && b in Under(f, Slot(ip, r)) ensures false {
      var s := SlotsWitness(f, ip, r, b);
      var t := UnderWitness(f, Slot(ip, r), b);
      assert Apart(f, s, t);
      OnPathLength(Slot(ip, r), t);
    }
  }

  lemma {:induction false} SlotIsUnder(f: Forest, ip: nat, r: nat, k: nat)
    requires Shaped(f) && ip < |f.addrs| && k < r <= NSLOTS
    ensures Under(f, Slot(ip, k)) <= UnderSlots(f, ip, r)
  {
    if k < r - 1 {
      SlotIsUnder(f, ip, r - 1, k);
    }
  }

  lemma {:induction false} RootOnPath(n: nat, s: Path)
    requires Valid(n, s)
    ensures OnPath(Slot(Owner(s), SlotOf(s)), s) && SlotOf(s) < NSLOTS && Owner(s) < n
  {
    if s.Entry? {
      RootOnPath(n, s.node);
    }
  }

  /** UnderSlots(ip, NSLOTS) is exactly the blocks of the file: data and index blocks. */
  lemma {:induction false} FileBlocks(f: Forest, ip: nat, s: Path)
    requires Shaped(f) && Valid(|f.addrs|, s) && Owner(s) == ip < |f.addrs| && Ptr(f, s) != 0
    ensures (Ptr(f, s) as nat) in UnderSlots(f, ip, NSLOTS)
  {
    RootOnPath(|f.addrs|, s);
    var root := Slot(ip, SlotOf(s));
    UnderAll(f, root, s);
    SlotIsUnder(f, ip, NSLOTS, SlotOf(s));
  }

  lemma {:induction false} UnderUsed(f: Forest, lo: nat, p: Path)
    requires WF(f, lo) && Valid(|f.addrs|, p)
    ensures Under(f, p) <= f.used
  {
    forall b | b in Under(f, p) ensures b in f.used {
      var s := UnderWitness(f, p, b);
    }
  }

  // ---- A truncated file ----

  /** f' is f after truncating ip: its slots are empty, exactly its blocks are free,
      and the data area is untouched. */
  ghost predicate Truncated(f: Forest, f': Forest, lo: nat, ip: nat)
    requires Shaped(f) && ip < |f.addrs|
  {
    && f'.addrs == f.addrs[ip := seq(NSLOTS, _ => 0)]
    && f'.used == f.used - UnderSlots(f, ip, NSLOTS)
    && |f'.disk| == |f.disk|
    && forall b :: lo <= b < |f.disk| ==> f'.disk[b] == f.disk[b]
  }

  lemma {:induction false} TruncatedPtr(f: Forest, f': Forest, lo: nat, ip: nat, s: Path)
    requires WF(f, lo) && ip < |f.addrs| && Truncated(f, f', lo, ip) && Valid(|f.addrs|, s)
    ensures Shaped(f') && Ptr(f', s) == if Owner(s) == ip then 0 else Ptr(f, s)
  {
    if s.Entry? {
      TruncatedPtr(f, f', lo, ip, s.node);
      assert Owner(s) != ip ==> Ptr(f, s.node) == 0 || lo <= Ptr(f, s.node) < |f.disk|;
    }
  }

  lemma {:induction false} SlotsOwner(f: Forest, lo: nat, ip: nat, s: Path)
    requires WF(f, lo) && ip < |f.addrs| && Valid(|f.addrs|, s) && (Ptr(f, s) as nat) in UnderSlots(f, ip, NSLOTS)
    ensures Owner(s) == ip
  {
    var t := SlotsWitness(f, ip, NSLOTS, Ptr(f, s));
    assert Apart(f, s, t);
  }

  /** The other files keep their trees, and the freed blocks were theirs in no case. */
  lemma {:induction false} TruncatedWF(f: Forest, f': Forest, lo: nat, ip: nat)
    requires WF(f, lo) && ip < |f.addrs| && Truncated(f, f', lo, ip)
    ensures WF(f', lo)
  {
    forall s | Valid(|f.addrs|, s)
      ensures Shaped(f') && Ptr(f', s) == if Owner(s) == ip then 0 else Ptr(f, s)
      ensures Ptr(f', s) != 0 ==> Ptr(f', s) in f'.used
    {
      TruncatedPtr(f, f', lo, ip, s);
      if Ptr(f', s) != 0 && (Ptr(f, s) as nat) in UnderSlots(f, ip, NSLOTS) {
        SlotsOwner(f, lo, ip, s);
      }
    }
    forall s, t | Valid(|f.addrs|, s) && Valid(|f.addrs|, t) ensures Apart(f', s, t) {
      assert Apart(f, s, t);
    }
  }

  lemma {:induction false} TruncatedBytes(f: Forest, f': Forest, lo: nat, ip: nat, jp: nat, i: nat)
    requires WF(f, lo) && ip < |f.addrs| && Truncated(f, f', lo, ip) && jp < |f.addrs| && i / BSIZE < MAXFILE
    ensures Shaped(f') && ByteAt(f', jp, i) == if jp == ip then 0 else ByteAt(f, jp, i)
  {
    PathOfIsLeaf(|f.addrs|, jp, i / BSIZE);
    TruncatedPtr(f, f', lo, ip, PathOf(jp, i / BSIZE));
  }
}
