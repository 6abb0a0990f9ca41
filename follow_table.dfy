/** The Follow table as a sequence of rows, with the two ways the view handlers change it. */
module FollowTable {
  import opened Domain

  /** Each (user, author) pair occurs in at most one row. */
  predicate NoDuplicates(rows: seq<Follow>) {
    forall i, j :: 0 <= i < j < |rows| ==> rows[i] != rows[j]
  }

  /** Nobody follows themself. */
  predicate NoSelfFollows(rows: seq<Follow>) {
    forall f :: f in rows ==> f.user != f.author
  }

  /** The table invariant: unique pairs, no self edges, both ends registered users. */
  predicate ValidTable(rows: seq<Follow>, users: set<Username>) {
    && NoDuplicates(rows)
    && NoSelfFollows(rows)
    && (forall f :: f in rows ==> f.user in users && f.author in users)
  }

  /**
   * The effect of a follow request on the table: refused when the user is the author or
   * the row already exists, otherwise one new row.
   */
  function FollowRows(rows: seq<Follow>, user: Username, author: Username): (r: seq<Follow>)
    ensures forall g :: g in r <==> g in rows || (g == Follow(user, author) && user != author)
    ensures |r| == |rows| + (if user != author && Follow(user, author) !in rows then 1 else 0)
    ensures |rows| <= |r| && r[..|rows|] == rows
  {
    if user == author || Follow(user, author) in rows then rows
    else rows + [Follow(user, author)]
  }

  /** The matching rows deleted, every other row kept in order. */
  function RemoveRows(rows: seq<Follow>, f: Follow): (r: seq<Follow>)
    ensures forall g :: g in r <==> g in rows && g != f
    ensures |r| <= |rows|
  {
    if rows == [] then []
    else if rows[0] == f then RemoveRows(rows[1..], f)
    else [rows[0]] + RemoveRows(rows[1..], f)
  }

  /** Deleting touches exactly the rows equal to `f`; every other pair keeps its multiplicity. */
  lemma {:induction false} RemoveRowsMultiplicity(rows: seq<Follow>, f: Follow, g: Follow)
    ensures multiset(RemoveRows(rows, f))[g] == if g == f then 0 else multiset(rows)[g]
  {
    if rows != [] {
      RemoveRowsMultiplicity(rows[1..], f, g);
      assert rows == [rows[0]] + rows[1..];
    }
  }

  /** Deleting a pair that has no row leaves the table as it was. */
  lemma {:induction false} RemoveAbsentRow(rows: seq<Follow>, f: Follow)
    requires f !in rows
    ensures RemoveRows(rows, f) == rows
  {
    if rows != [] {
      assert f !in rows[1..];
      RemoveAbsentRow(rows[1..], f);
      assert rows == [rows[0]] + rows[1..];
    }
  }

  /** Every pair other than `f` keeps its multiplicity. */
  lemma RemoveRowsKeepsOthers(rows: seq<Follow>, f: Follow)
    ensures forall g :: g != f ==> multiset(RemoveRows(rows, f))[g] == multiset(rows)[g]
  {
    forall g | g != f ensures multiset(RemoveRows(rows, f))[g] == multiset(rows)[g] {
      RemoveRowsMultiplicity(rows, f, g);
    }
  }

  /** In a table without duplicates a present pair occurs exactly once. */
  lemma {:induction false} PresentOnce(rows: seq<Follow>, f: Follow)
    requires NoDuplicates(rows)
    ensures multiset(rows)[f] == if f in rows then 1 else 0
  {
    if rows != [] {
      assert rows == [rows[0]] + rows[1..];
      assert NoDuplicates(rows[1..]) by {
        forall i, j | 0 <= i < j < |rows[1..]| ensures rows[1..][i] != rows[1..][j] {
          assert rows[1..][i] == rows[i + 1] && rows[1..][j] == rows[j + 1];
        }
      }
      PresentOnce(rows[1..], f);
      if rows[0] == f {
        assert f !in rows[1..] by {
          forall k | 0 <= k < |rows[1..]| ensures rows[1..][k] != f {
            assert rows[1..][k] == rows[k + 1];
          }
        }
      }
    }
  }

  /** A table without duplicates has none after a delete. */
  lemma {:induction false} RemoveRowsNoDuplicates(rows: seq<Follow>, f: Follow)
    requires NoDuplicates(rows)
    ensures NoDuplicates(RemoveRows(rows, f))
  {
    var r := RemoveRows(rows, f);
    forall i, j | 0 <= i < j < |r| ensures r[i] != r[j] {
      if r[i] == r[j] {
        assert multiset(r)[r[i]] >= 2 by {
          assert r == r[..i] + [r[i]] + r[i + 1..j] + [r[j]] + r[j + 1..];
        }
        RemoveRowsMultiplicity(rows, f, r[i]);
        PresentOnce(rows, r[i]);
        assert false;
      }
    }
  }

  /** Both handlers keep the table invariant. */
  lemma FollowRowsValid(rows: seq<Follow>, users: set<Username>, user: Username, author: Username)
    requires ValidTable(rows, users) && user in users && author in users
    ensures ValidTable(FollowRows(rows, user, author), users)
  {
  }

  lemma RemoveRowsValid(rows: seq<Follow>, users: set<Username>, f: Follow)
    requires ValidTable(rows, users)
    ensures ValidTable(RemoveRows(rows, f), users)
  {
    RemoveRowsNoDuplicates(rows, f);
  }

  /**
   * Following twice in a row leaves exactly one row for the pair, and following oneself
   * leaves none.
   */
  lemma FollowTwiceOneRow(rows: seq<Follow>, users: set<Username>, user: Username, author: Username)
    requires ValidTable(rows, users) && user in users && author in users
    ensures multiset(FollowRows(FollowRows(rows, user, author), user, author))[Follow(user, author)]
         == if user == author then 0 else 1
  {
    var once := FollowRows(rows, user, author);
    FollowRowsValid(rows, users, user, author);
    assert FollowRows(once, user, author) == once;
    PresentOnce(once, Follow(user, author));
  }
}
