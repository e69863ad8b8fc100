/** The administration routes: slugs and the free-slug search, the dynamic UPDATE builder,
    product, category and order maintenance, the upload filter and the list queries. */
module AdminRoutes {
  import opened Js
  import opened Tables
  import opened Database

  /** The status code and message a handler answers with. */
  datatype Reply = Reply(status: nat, message: string)

  // ---------------------------------------------------------------------------
  // Slugs
  // ---------------------------------------------------------------------------

  predicate IsSlugChar(c: char) {
    ('a' <= c <= 'z') || ('0' <= c <= '9')
  }

  /** Only slug characters and dashes. */
  predicate SlugText(s: string) {
    forall i :: 0 <= i < |s| ==> IsSlugChar(s[i]) || s[i] == '-'
  }

  predicate DoubleDashAt(s: string, i: int) {
    0 <= i < |s| - 1 && s[i] == '-' && s[i + 1] == '-'
  }

  predicate NoDoubleDash(s: string) {
    forall i :: 0 <= i < |s| ==> !DoubleDashAt(s, i)
  }

  /** Drops the run of characters outside `[a-z0-9]` at the front of `s`. */
  function DropNonSlug(s: string): (r: string)
    ensures |r| <= |s| && r == s[|s| - |r|..]
    ensures r == [] || IsSlugChar(r[0])
  {
    if s != [] && !IsSlugChar(s[0]) then DropNonSlug(s[1..]) else s
  }

  /** `s.replace(/[^a-z0-9]+/g, '-')`: every maximal run of characters outside `[a-z0-9]`
      becomes one dash. */
  function CollapseRuns(s: string): (r: string)
    decreases |s|
    ensures r == [] <==> s == []
    ensures SlugText(r)
    ensures s != [] ==> r[0] == (if IsSlugChar(s[0]) then s[0] else '-')
  {
    if s == [] then []
    else if IsSlugChar(s[0]) then [s[0]] + CollapseRuns(s[1..])
    else "-" + CollapseRuns(DropNonSlug(s[1..]))
  }

  /** `s.replace(/(^-|-$)/g, '')`: one dash is removed at the front and one at the end. */
  function TrimDashes(s: string): string {
    var t := if s != [] && s[0] == '-' then s[1..] else s;
    if t != [] && t[|t| - 1] == '-' then t[..|t| - 1] else t
  }

  /** The slug the handlers derive from a product or category name. */
  function Slugify(name: string): string {
    TrimDashes(CollapseRuns(Lower(name)))
  }

  /** Only `[a-z0-9-]`, no dash at either end and no two dashes in a row. */
  predicate WellFormedSlug(s: string) {
    SlugText(s) && (s == [] || (s[0] != '-' && s[|s| - 1] != '-')) && NoDoubleDash(s)
  }

  lemma SlugifyWellFormed(name: string)
    ensures WellFormedSlug(Slugify(name))
  {
    var c := CollapseRuns(Lower(name));
    CollapseRunsNoDoubleDash(Lower(name));
    var t := if c != [] && c[0] == '-' then c[1..] else c;
    assert SlugText(t);
    assert NoDoubleDash(t) by {
      forall i ensures !DoubleDashAt(t, i) {
        if t != c {
          assert !DoubleDashAt(c, i + 1);
        }
      }
    }
    assert t == [] || t[0] != '-' by {
      if t != c && t != [] {
        assert !DoubleDashAt(c, 0);
      }
    }
    var u := Slugify(name);
    assert SlugText(u);
    assert NoDoubleDash(u) by {
      forall i ensures !DoubleDashAt(u, i) {
        assert !DoubleDashAt(t, i);
      }
    }
    assert u == [] || u[|u| - 1] != '-' by {
      if u != t && u != [] {
        assert !DoubleDashAt(t, |u| - 1);
      }
    }
  }

  /** A well-formed slug is its own slug. */
  lemma SlugifyKeepsWellFormed(s: string)
    requires WellFormedSlug(s)
    ensures Slugify(s) == s
  {
    LowerKeepsSlug(s);
    CollapseFixed(s);
    TrimDashesKeeps(s);
  }

  lemma TrimDashesKeeps(s: string)
    requires s == [] || (s[0] != '-' && s[|s| - 1] != '-')
    ensures TrimDashes(s) == s
  {
  }

  /** Collapsing never leaves two dashes in a row. */
  lemma {:induction false} CollapseRunsNoDoubleDash(s: string)
    ensures NoDoubleDash(CollapseRuns(s))
    decreases |s|
  {
    if s != [] {
      var r := CollapseRuns(s);
      var rest := if IsSlugChar(s[0]) then s[1..] else DropNonSlug(s[1..]);
      var tail := CollapseRuns(rest);
      CollapseRunsNoDoubleDash(rest);
      assert r == [r[0]] + tail;
      forall i | 0 <= i < |r| ensures !DoubleDashAt(r, i) {
        if i > 0 {
          assert !DoubleDashAt(tail, i - 1);
        }
      }
    }
  }

  lemma LowerKeepsSlug(s: string)
    requires SlugText(s)
    ensures Lower(s) == s
  {
    forall i | 0 <= i < |s| ensures Lower(s)[i] == s[i] {
      assert IsSlugChar(s[i]) || s[i] == '-';
    }
  }

  /** Deriving a slug twice gives the same slug as deriving it once. */
  lemma SlugifyIdempotent(name: string)
    ensures Slugify(Slugify(name)) == Slugify(name)
  {
    SlugifyWellFormed(name);
    SlugifyKeepsWellFormed(Slugify(name));
  }

  /** Collapsing leaves a string of slug characters and isolated dashes as it is. */
  lemma {:induction false} CollapseFixed(s: string)
    requires SlugText(s) && NoDoubleDash(s)
    ensures CollapseRuns(s) == s
  {
    if s != [] {
      var rest := s[1..];
      assert SlugText(rest);
      assert NoDoubleDash(rest) by {
        forall i ensures !DoubleDashAt(rest, i) {
          assert !DoubleDashAt(s, i + 1);
        }
      }
      if !IsSlugChar(s[0]) {
        assert rest == [] || IsSlugChar(rest[0]) by {
          assert !DoubleDashAt(s, 0);
        }
        assert DropNonSlug(rest) == rest;
      }
      CollapseFixed(rest);
    }
  }

  /** The letters and digits of `s`, in order. */
  function Alnums(s: string): (r: string)
    ensures |r| <= |s|
  {
    if s == [] then [] else (if IsSlugChar(s[0]) then [s[0]] else []) + Alnums(s[1..])
  }

  lemma {:induction false} AlnumsConcat(a: string, b: string)
    ensures Alnums(a + b) == Alnums(a) + Alnums(b)
  {
    if a == [] {
      assert a + b == b;
    } else {
      var head := if IsSlugChar(a[0]) then [a[0]] else [];
      assert (a + b)[0] == a[0] && (a + b)[1..] == a[1..] + b;
      assert Alnums(a + b) == head + Alnums(a[1..] + b);
      AlnumsConcat(a[1..], b);
      assert Alnums(a) == head + Alnums(a[1..]);
    }
  }

  lemma {:induction false} DropNonSlugAlnums(s: string)
    ensures Alnums(DropNonSlug(s)) == Alnums(s)
  {
    if s != [] && !IsSlugChar(s[0]) {
      DropNonSlugAlnums(s[1..]);
    }
  }

  lemma {:induction false} CollapseRunsAlnums(s: string)
    ensures Alnums(CollapseRuns(s)) == Alnums(s)
    decreases |s|
  {
    if s != [] {
      if IsSlugChar(s[0]) {
        CollapseRunsAlnums(s[1..]);
        AlnumsConcat([s[0]], CollapseRuns(s[1..]));
      } else {
        DropNonSlugAlnums(s[1..]);
        CollapseRunsAlnums(DropNonSlug(s[1..]));
        AlnumsConcat("-", CollapseRuns(DropNonSlug(s[1..])));
      }
    }
  }

  /** A slug keeps every ASCII letter (lower-cased) and digit of the name, in order, and
      nothing else of it but dashes. */
  lemma SlugifyKeepsAlnums(name: string)
    ensures Alnums(Slugify(name)) == Alnums(Lower(name))
  {
    CollapseRunsAlnums(Lower(name));
    TrimDashesAlnums(CollapseRuns(Lower(name)));
  }

  lemma TrimDashesAlnums(c: string)
    ensures Alnums(TrimDashes(c)) == Alnums(c)
  {
    var t := if c != [] && c[0] == '-' then c[1..] else c;
    if c != [] && c[0] == '-' {
      AlnumsConcat("-", c[1..]);
      assert c == "-" + c[1..];
    }
    if t != [] && t[|t| - 1] == '-' {
      AlnumsConcat(t[..|t| - 1], "-");
      assert t == t[..|t| - 1] + "-";
    }
  }

  // ---------------------------------------------------------------------------
  // Finding a free slug
  // ---------------------------------------------------------------------------

  /** The k-th slug the loop tries: the base itself, then `base-1`, `base-2`, … */
  function Candidate(base: string, k: nat): string {
    if k == 0 then base else base + "-" + NatToString(k)
  }

  lemma CandidateInjective(base: string, i: nat, j: nat)
    requires Candidate(base, i) == Candidate(base, j)
    ensures i == j
  {
    if i != 0 && j != 0 {
      var t := Candidate(base, i);
      assert t[|base| + 1..] == NatToString(i);
      assert t[|base| + 1..] == NatToString(j);
      IntToStringInjective(i, j);
    }
  }

  /** The candidates tried before the k-th. */
  function CandidatesBelow(base: string, k: nat): (r: set<string>)
    ensures forall j :: 0 <= j < k ==> Candidate(base, j) in r
  {
    if k == 0 then {} else CandidatesBelow(base, k - 1) + {Candidate(base, k - 1)}
  }

  lemma {:induction false} CandidateNotBelow(base: string, k: nat, n: nat)
    requires n <= k
    ensures Candidate(base, k) !in CandidatesBelow(base, n)
  {
    if n > 0 {
      CandidateNotBelow(base, k, n - 1);
      if Candidate(base, k) == Candidate(base, n - 1) {
        CandidateInjective(base, k, n - 1);
      }
    }
  }

  lemma {:induction false} CandidatesBelowSize(base: string, k: nat)
    ensures |CandidatesBelow(base, k)| == k
  {
    if k > 0 {
      CandidatesBelowSize(base, k - 1);
      CandidateNotBelow(base, k - 1, k - 1);
    }
  }

  /** `slug` is the first candidate for `base` that is not in `taken`. */
  ghost predicate FirstFree(base: string, taken: set<string>, slug: string) {
    slug !in taken &&
    exists k: nat :: slug == Candidate(base, k) && forall j :: 0 <= j < k ==> Candidate(base, j) in taken
  }

  /** The free-slug loop: tries the base, then `base-1`, `base-2`, … until one is unused. */
  method UniqueSlug(base: string, taken: set<string>) returns (slug: string)
    ensures FirstFree(base, taken, slug)
  {
    slug := base;
    var counter: nat := 1;
    while slug in taken
      invariant counter >= 1
      invariant slug == Candidate(base, counter - 1)
      invariant CandidatesBelow(base, counter - 1) <= taken
      decreases |taken| - (counter - 1)
    {
      CandidatesBelowSize(base, counter);
      assert CandidatesBelow(base, counter) <= taken;
      assert |CandidatesBelow(base, counter)| <= |taken| by {
        SubsetSize(CandidatesBelow(base, counter), taken);
      }
      slug := base + "-" + NatToString(counter);
      counter := counter + 1;
    }
  }

  lemma SubsetSize<T>(a: set<T>, b: set<T>)
    requires a <= b
    ensures |a| <= |b|
  {
    assert b == a + (b - a);
  }

  /** There is only one first free candidate. */
  lemma FirstFreeUnique(base: string, taken: set<string>, s1: string, s2: string)
    requires FirstFree(base, taken, s1) && FirstFree(base, taken, s2)
    ensures s1 == s2
  {
    var k1: nat :| s1 == Candidate(base, k1) && forall j :: 0 <= j < k1 ==> Candidate(base, j) in taken;
    var k2: nat :| s2 == Candidate(base, k2) && forall j :: 0 <= j < k2 ==> Candidate(base, j) in taken;
    assert k1 < k2 ==> Candidate(base, k1) in taken;
    assert k2 < k1 ==> Candidate(base, k2) in taken;
  }

  /** An unused base slug is kept as it is. */
  lemma FreeBaseIsKept(base: string, taken: set<string>, slug: string)
    requires base !in taken && FirstFree(base, taken, slug)
    ensures slug == base
  {
    assert FirstFree(base, taken, Candidate(base, 0));
    FirstFreeUnique(base, taken, slug, base);
  }

  /** The second row with the same name gets the base slug with `-1` appended. */
  lemma SecondGetsSuffixOne(base: string, slug: string)
    requires FirstFree(base, {base}, slug)
    ensures slug == base + "-1"
  {
    assert NatToString(1) == "1";
    assert Candidate(base, 1) == base + "-1";
    assert base + "-1" != base by {
      assert |base + "-1"| != |base|;
    }
    assert FirstFree(base, {base}, Candidate(base, 1));
    FirstFreeUnique(base, {base}, slug, Candidate(base, 1));
  }

  // ---------------------------------------------------------------------------
  // The dynamic UPDATE builder
  // ---------------------------------------------------------------------------

  /** The body entries an UPDATE sets: every key but `id` and `skip`, in key order. */
  function Assigned(body: seq<(string, Value)>, skip: string): (r: seq<(string, Value)>)
    ensures |r| <= |body|
  {
    if body == [] then []
    else
      var e := body[|body| - 1];
      Assigned(body[..|body| - 1], skip) + (if e.0 != "id" && e.0 != skip then [e] else [])
  }

  /** The builder keeps exactly the entries whose key is neither `id` nor `skip`. */
  lemma {:induction false} AssignedMembers(body: seq<(string, Value)>, skip: string)
    ensures forall e :: e in Assigned(body, skip) <==> e in body && e.0 != "id" && e.0 != skip
  {
    if body != [] {
      var init := body[..|body| - 1];
      AssignedMembers(init, skip);
      assert body == init + [body[|body| - 1]];
    }
  }

  lemma SetClausesConcat(a: seq<(string, Value)>, b: seq<(string, Value)>)
    ensures SetClauses(a + b) == SetClauses(a) + SetClauses(b)
    ensures SetValues(a + b) == SetValues(a) + SetValues(b)
  {
  }

  function SetClauses(entries: seq<(string, Value)>): (r: seq<string>)
    ensures |r| == |entries|
  {
    seq(|entries|, i requires 0 <= i < |entries| => entries[i].0 + " = ?")
  }

  function SetValues(entries: seq<(string, Value)>): (r: seq<Value>)
    ensures |r| == |entries|
  {
    seq(|entries|, i requires 0 <= i < |entries| => entries[i].1)
  }

  /** The UPDATE that sets `entries` on the row `id` of `table`. */
  function UpdateStatement(table: string, entries: seq<(string, Value)>, id: Value): Statement {
    Statement("UPDATE " + table + " SET " + Join(SetClauses(entries), ", ") + " WHERE id = ?",
              SetValues(entries) + [id])
  }

  /** The update-field builder: one `key = ?` per body key except `id` and `skip`, then the
      `extra` assignments (a new category image); no statement when nothing is left to set. */
  method BuildUpdate(table: string, body: seq<(string, Value)>, skip: string,
                     extra: seq<(string, Value)>, id: Value) returns (stmt: Option<Statement>)
    ensures var entries := Assigned(body, skip) + extra;
      && (stmt.None? <==> entries == [])
      && (stmt.Some? ==> stmt.value == UpdateStatement(table, entries, id))
  {
    var fields: seq<string> := [];
    var values: seq<Value> := [];
    for i := 0 to |body|
      invariant fields == SetClauses(Assigned(body[..i], skip))
      invariant values == SetValues(Assigned(body[..i], skip))
    {
      var (key, value) := body[i];
      ghost var before := Assigned(body[..i], skip);
      assert body[..i + 1][..i] == body[..i];
      if key != "id" && key != skip {
        SetClausesConcat(before, [(key, value)]);
        fields := fields + [key + " = ?"];
        values := values + [value];
      }
    }
    assert body[..|body|] == body;
    SetClausesConcat(Assigned(body, skip), extra);
    fields := fields + SetClauses(extra);
    values := values + SetValues(extra);
    if |fields| > 0 {
      values := values + [id];
      stmt := Some(Statement("UPDATE " + table + " SET " + Join(fields, ", ") + " WHERE id = ?", values));
    } else {
      stmt := None;
    }
  }

  /** With keys and table name free of `?`, the UPDATE has one placeholder per value, and the
      record id is bound last. */
  lemma UpdatePlaceholdersMatchValues(table: string, entries: seq<(string, Value)>, id: Value)
    requires CountChar(table, '?') == 0
    requires forall e :: e in entries ==> CountChar(e.0, '?') == 0
    ensures var st := UpdateStatement(table, entries, id);
      CountChar(st.sql, '?') == |st.params| && st.params[|st.params| - 1] == id
  {
    var clauses := SetClauses(entries);
    SetClausesCount(entries);
    assert CountChar(", ", '?') == 0;
    CountCharJoin(clauses, ", ", '?');
    var j := Join(clauses, ", ");
    var a, b, c := "UPDATE ", " SET ", " WHERE id = ?";
    UpdateKeywordCounts();
    CountCharConcat(a, table, '?');
    CountCharConcat(a + table, b, '?');
    CountCharConcat(a + table + b, j, '?');
    CountCharConcat(a + table + b + j, c, '?');
  }

  lemma UpdateKeywordCounts()
    ensures CountChar("UPDATE ", '?') == 0 && CountChar(" SET ", '?') == 0
    ensures CountChar(" WHERE id = ?", '?') == 1
  {
    CountCharAbsent("UPDATE ", '?');
    CountCharAbsent(" SET ", '?');
    WhereIdCount();
  }

  lemma WhereIdCount()
    ensures CountChar(" WHERE id = ?", '?') == 1
  {
    WhereIdPrefixCount();
    WhereIdSplit();
    CountCharConcat(" WHERE id = ", "?", '?');
  }

  lemma WhereIdPrefixCount()
    ensures CountChar(" WHERE id = ", '?') == 0
  {
    CountCharAbsent(" WHERE id = ", '?');
  }

  lemma WhereIdSplit()
    ensures " WHERE id = " + "?" == " WHERE id = ?"
  {
  }

  lemma {:induction false} SetClausesCount(entries: seq<(string, Value)>)
    requires forall e :: e in entries ==> CountChar(e.0, '?') == 0
    ensures SumCounts(SetClauses(entries), '?') == |entries|
  {
    if entries != [] {
      SetClausesCount(entries[1..]);
      assert SetClauses(entries)[1..] == SetClauses(entries[1..]);
      CountCharConcat(entries[0].0, " = ?", '?');
      assert CountChar(" = ?", '?') == 1;
      assert entries[0] in entries;
    }
  }

  // ---------------------------------------------------------------------------
  // Product images
  // ---------------------------------------------------------------------------

  /** The rows the image loop inserts for `files`: row `i` holds the i-th file with sort
      order `i`, and row 0 is primary when `firstPrimary` holds; no other row is. */
  function UploadedRows(productId: int, files: seq<string>, firstPrimary: bool): (r: seq<ProductImage>)
    ensures |r| == |files|
  {
    seq(|files|, i requires 0 <= i < |files| => ProductImage(productId, files[i], firstPrimary && i == 0, i))
  }

  predicate HasPrimary(images: seq<ProductImage>, productId: int) {
    exists i :: 0 <= i < |images| && images[i].productId == productId && images[i].isPrimary
  }

  /** No product has two primary images. */
  predicate PrimaryUnique(images: seq<ProductImage>) {
    forall i, j :: 0 <= i < j < |images| && images[i].isPrimary && images[j].isPrimary ==>
      images[i].productId != images[j].productId
  }

  /** Every image row belongs to a listed product. */
  predicate ImagesListed(images: seq<ProductImage>, products: map<int, Product>) {
    forall i :: 0 <= i < |images| ==> images[i].productId in products
  }

  lemma UploadedRowsPrefix(productId: int, files: seq<string>, firstPrimary: bool, i: nat)
    requires i < |files|
    ensures UploadedRows(productId, files[..i + 1], firstPrimary)
         == UploadedRows(productId, files[..i], firstPrimary) + [ProductImage(productId, files[i], firstPrimary && i == 0, i)]
  {
  }

  /** The image loop of the update handler as written: file 0 is marked primary whatever
      images the product already has. */
  method InsertImagesAsWritten(db: Db, productId: int, files: seq<string>)
    modifies db`images
    ensures db.images == old(db.images) + UploadedRows(productId, files, true)
  {
    for i := 0 to |files|
      invariant db.images == old(db.images) + UploadedRows(productId, files[..i], true)
    {
      UploadedRowsPrefix(productId, files, true, i);
      db.images := db.images + [ProductImage(productId, files[i], i == 0, i)];
    }
    assert files[..|files|] == files;
  }

  /** Uploading to a product that already has a primary image, as written, leaves it with
      two primary images. */
  lemma AsWrittenDuplicatesPrimary(images: seq<ProductImage>, productId: int, files: seq<string>)
    requires HasPrimary(images, productId) && files != []
    ensures !PrimaryUnique(images + UploadedRows(productId, files, true))
  {
    var k :| 0 <= k < |images| && images[k].productId == productId && images[k].isPrimary;
    var all := images + UploadedRows(productId, files, true);
    assert all[k] == images[k];
    assert all[|images|] == ProductImage(productId, files[0], true, 0);
  }

  /** The image loop with the first file made primary only when the product has no primary
      image yet. */
  method InsertImages(db: Db, productId: int, files: seq<string>)
    modifies db`images
    ensures db.images == old(db.images) + UploadedRows(productId, files, !HasPrimary(old(db.images), productId))
  {
    var first := !HasPrimary(db.images, productId);
    for i := 0 to |files|
      invariant db.images == old(db.images) + UploadedRows(productId, files[..i], first)
    {
      UploadedRowsPrefix(productId, files, first, i);
      db.images := db.images + [ProductImage(productId, files[i], first && i == 0, i)];
    }
    assert files[..|files|] == files;
  }

  /** The corrected loop keeps at most one primary image per product, and a product that
      received files has a primary image afterwards. */
  lemma InsertKeepsPrimaryUnique(images: seq<ProductImage>, productId: int, files: seq<string>)
    requires PrimaryUnique(images)
    ensures var after := images + UploadedRows(productId, files, !HasPrimary(images, productId));
      PrimaryUnique(after) && (files != [] ==> HasPrimary(after, productId))
  {
    var first := !HasPrimary(images, productId);
    var rows := UploadedRows(productId, files, first);
    var after := images + rows;
    forall i, j | 0 <= i < j < |after| && after[i].isPrimary && after[j].isPrimary
      ensures after[i].productId != after[j].productId
    {
      if j >= |images| {
        assert after[j] == rows[j - |images|];
        if i < |images| {
          assert after[i] == images[i];
        }
      }
    }
    if files != [] {
      if first {
        assert after[|images|] == rows[0];
      } else {
        var k :| 0 <= k < |images| && images[k].productId == productId && images[k].isPrimary;
        assert after[k] == images[k];
      }
    }
  }

  // ---------------------------------------------------------------------------
  // Products
  // ---------------------------------------------------------------------------

  /** The text MySQL stores for a bound value in a text column (`name`, `slug`, `image`):
      none for values the model leaves unconverted. */
  function SqlText(v: Value): (r: Option<string>)
    ensures v.Str? ==> r == Some(v.s)
    ensures v.Int? ==> r == Some(IntToString(v.n))
    ensures !v.Str? && !v.Int? ==> r.None?
  {
    match v
    case Str(s) => Some(s)
    case Int(n) => Some(IntToString(n))
    case _ => None
  }

  /** The integer MySQL stores for a bound value in an integer column (`category_id`,
      `is_active`): a number, a boolean as 1 or 0, or a string holding a decimal integer;
      none for values the model leaves unconverted. */
  function SqlInt(v: Value): (r: Option<int>)
    ensures v.Int? ==> r == Some(v.n)
    ensures v.Bool? ==> r == Some(if v.b then 1 else 0)
    ensures v.Str? ==> r == ParseInt(v.s)
  {
    match v
    case Int(n) => Some(n)
    case Bool(b) => Some(if b then 1 else 0)
    case Str(s) => ParseInt(s)
    case _ => None
  }

  /** One `key = ?` assignment of an UPDATE applied to a product row, for the columns the
      model keeps; any other column leaves the modelled row as it is. */
  function SetProductColumn(p: Product, key: string, v: Value): (r: Product)
    ensures r.id == p.id
    ensures key != "name" ==> r.name == p.name
    ensures key != "slug" ==> r.slug == p.slug
    ensures key != "category_id" ==> r.categoryId == p.categoryId
    ensures key != "is_active" ==> r.isActive == p.isActive
  {
    if key == "name" && SqlText(v).Some? then p.(name := SqlText(v).value)
    else if key == "slug" && SqlText(v).Some? then p.(slug := SqlText(v).value)
    else if key == "category_id" && v.Null? then p.(categoryId := None)
    else if key == "category_id" && SqlInt(v).Some? then p.(categoryId := Some(SqlInt(v).value))
    else if key == "is_active" && SqlInt(v).Some? then p.(isActive := SqlInt(v).value != 0)
    else p
  }

  /** The row an `UPDATE products SET … WHERE id = ?` leaves: the assignments applied left
      to right, so a later assignment to a column wins; a column no assignment names keeps
      its value, and the id never changes. */
  function ApplyProduct(p: Product, entries: seq<(string, Value)>): (r: Product)
    ensures r.id == p.id
    ensures (forall e :: e in entries ==> e.0 != "name") ==> r.name == p.name
    ensures (forall e :: e in entries ==> e.0 != "slug") ==> r.slug == p.slug
    ensures (forall e :: e in entries ==> e.0 != "category_id") ==> r.categoryId == p.categoryId
    ensures (forall e :: e in entries ==> e.0 != "is_active") ==> r.isActive == p.isActive
  {
    if entries == [] then p
    else
      var e := entries[|entries| - 1];
      assert forall x :: x in entries[..|entries| - 1] ==> x in entries;
      SetProductColumn(ApplyProduct(p, entries[..|entries| - 1]), e.0, e.1)
  }

  /** The last assignment to `is_active` decides it: a product deactivated by the final
      assignment is inactive whatever came before. */
  lemma LastActiveAssignmentWins(p: Product, entries: seq<(string, Value)>, v: Value)
    requires SqlInt(v).Some?
    ensures ApplyProduct(p, entries + [("is_active", v)]).isActive <==> SqlInt(v).value != 0
  {
    assert (entries + [("is_active", v)])[..|entries|] == entries;
  }

  /** An update that assigns no `slug` keeps product slugs distinct. */
  lemma UpdateWithoutSlugKeepsSlugsDistinct(products: map<int, Product>, id: int, entries: seq<(string, Value)>)
    requires ProductSlugsDistinct(products) && id in products
    requires forall e :: e in entries ==> e.0 != "slug"
    ensures ProductSlugsDistinct(products[id := ApplyProduct(products[id], entries)])
  {
  }

  /** No two products share a slug. */
  predicate ProductSlugsDistinct(products: map<int, Product>) {
    forall a, b :: a in products && b in products && a != b ==> products[a].slug != products[b].slug
  }

  lemma AddProductKeepsSlugsDistinct(products: map<int, Product>, id: int, p: Product)
    requires ProductSlugsDistinct(products) && id !in products && p.slug !in ProductSlugs(products)
    ensures ProductSlugsDistinct(products[id := p])
  {
    var after := products[id := p];
    forall a, b | a in after && b in after && a != b ensures after[a].slug != after[b].slug {
      if a == id {
        assert !ProductSlugTaken(products, p.slug);
      } else if b == id {
        assert !ProductSlugTaken(products, p.slug);
      }
    }
  }

  /** `POST /admin/products`: name and price are required; the product gets the first free
      slug of its name and its files become its images, the first one primary. */
  method CreateProduct(db: Db, name: Option<string>, price: Option<string>, categoryId: Option<int>,
                       files: seq<string>, newId: int) returns (reply: Reply)
    requires newId !in db.products && ImagesListed(db.images, db.products)
    modifies db`products, db`images
    ensures !Truthy(name) || !Truthy(price) ==>
      reply == Reply(400, "Nombre y precio son requeridos") && unchanged(db)
    ensures Truthy(name) && Truthy(price) ==>
      && reply == Reply(201, "Producto creado exitosamente")
      && newId in db.products
      && db.products == old(db.products)[newId := Product(newId, name.value, db.products[newId].slug, categoryId, true)]
      && FirstFree(Slugify(name.value), ProductSlugs(old(db.products)), db.products[newId].slug)
      && db.images == old(db.images) + UploadedRows(newId, files, true)
      && ImagesListed(db.images, db.products)
  {
    if !Truthy(name) || !Truthy(price) {
      return Reply(400, "Nombre y precio son requeridos");
    }
    var slug := UniqueSlug(Slugify(name.value), ProductSlugs(db.products));
    db.products := db.products[newId := Product(newId, name.value, slug, categoryId, true)];
    assert !HasPrimary(db.images, newId);
    InsertImages(db, newId, files);
    reply := Reply(201, "Producto creado exitosamente");
  }

  /** `PUT /admin/products/:id`: 404 for an unknown product; otherwise the UPDATE of every
      body field but `id` and `images` is applied to the row, and the uploaded files are added
      as images by the loop as written, the first one marked primary. */
  method UpdateProduct(db: Db, id: int, body: seq<(string, Value)>, files: seq<string>)
    returns (reply: Reply, stmt: Option<Statement>)
    modifies db`products, db`images
    ensures id !in old(db.products) ==>
      reply == Reply(404, "Producto no encontrado") && stmt.None? && unchanged(db)
    ensures id in old(db.products) ==>
      && reply == Reply(200, "Producto actualizado exitosamente")
      && (stmt.None? <==> Assigned(body, "images") == [])
      && (stmt.Some? ==> stmt.value == UpdateStatement("products", Assigned(body, "images"), Int(id)))
      && db.products == old(db.products)[id := ApplyProduct(old(db.products)[id], Assigned(body, "images"))]
      && db.images == old(db.images) + UploadedRows(id, files, true)
  {
    if id !in db.products {
      return Reply(404, "Producto no encontrado"), None;
    }
    stmt := BuildUpdate("products", body, "images", [], Int(id));
    assert Assigned(body, "images") + [] == Assigned(body, "images");
    if stmt.Some? {
      db.products := db.products[id := ApplyProduct(db.products[id], Assigned(body, "images"))];
    } else {
      assert db.products[id := ApplyProduct(db.products[id], [])] == db.products;
    }
    InsertImagesAsWritten(db, id, files);
    reply := Reply(200, "Producto actualizado exitosamente");
  }

  /** `DELETE /admin/products/:id`: 404 for an unknown product; otherwise the product and
      all of its image rows are removed. */
  method DeleteProduct(db: Db, id: int) returns (reply: Reply)
    modifies db`products, db`images
    ensures id !in old(db.products) ==> reply == Reply(404, "Producto no encontrado") && unchanged(db)
    ensures id in old(db.products) ==>
      && reply == Reply(200, "Producto eliminado exitosamente")
      && db.products == old(db.products) - {id}
      && db.images == Select(old(db.images), (img: ProductImage) => img.productId != id)
  {
    if id !in db.products {
      return Reply(404, "Producto no encontrado");
    }
    db.images := Select(db.images, (img: ProductImage) => img.productId != id);
    db.products := db.products - {id};
    reply := Reply(200, "Producto eliminado exitosamente");
  }

  /** Removing a product together with its images keeps every image row attached to a
      listed product, and keeps at most one primary image per product. */
  lemma DeleteProductKeepsImagesListed(images: seq<ProductImage>, products: map<int, Product>, id: int)
    requires ImagesListed(images, products) && PrimaryUnique(images)
    ensures var kept := Select(images, (img: ProductImage) => img.productId != id);
      ImagesListed(kept, products - {id}) && PrimaryUnique(kept)
  {
    SelectKeeps(images, id);
    var kept := Select(images, (img: ProductImage) => img.productId != id);
    forall i | 0 <= i < |kept| ensures kept[i].productId in products - {id} {
      assert kept[i] in kept;
      var m :| 0 <= m < |images| && images[m] == kept[i];
    }
  }

  lemma {:induction false} SelectKeeps(images: seq<ProductImage>, id: int)
    requires PrimaryUnique(images)
    ensures PrimaryUnique(Select(images, (img: ProductImage) => img.productId != id))
  {
    if images != [] {
      var keep := (img: ProductImage) => img.productId != id;
      var rest := images[1..];
      assert PrimaryUnique(rest) by {
        forall i, j | 0 <= i < j < |rest| && rest[i].isPrimary && rest[j].isPrimary
          ensures rest[i].productId != rest[j].productId
        {
          assert rest[i] == images[i + 1] && rest[j] == images[j + 1];
        }
      }
      SelectKeeps(rest, id);
      var tail := Select(rest, keep);
      if keep(images[0]) {
        var kept := [images[0]] + tail;
        forall i, j | 0 <= i < j < |kept| && kept[i].isPrimary && kept[j].isPrimary
          ensures kept[i].productId != kept[j].productId
        {
          if i == 0 {
            PrimaryNotRepeated(images, kept[j]);
          } else {
            assert kept[i] == tail[i - 1] && kept[j] == tail[j - 1];
          }
        }
      }
    }
  }

  lemma PrimaryNotRepeated(images: seq<ProductImage>, x: ProductImage)
    requires PrimaryUnique(images) && images != [] && images[0].isPrimary
    requires x in images[1..] && x.isPrimary
    ensures x.productId != images[0].productId
  {
    var m :| 0 <= m < |images| - 1 && images[1..][m] == x;
    assert images[m + 1] == x;
  }

  // ---------------------------------------------------------------------------
  // Categories
  // ---------------------------------------------------------------------------

  /** Whether some product, active or not, is filed under category `id`. */
  predicate CategoryInUse(products: map<int, Product>, id: int) {
    exists p :: p in products && products[p].categoryId == Some(id)
  }

  /** Every category a product names exists. */
  predicate CategoriesResolve(products: map<int, Product>, categories: map<int, Category>) {
    forall p :: p in products && products[p].categoryId.Some? ==> products[p].categoryId.value in categories
  }

  /** `POST /admin/categories`: a name is required; the category gets the first free slug of
      its name and the uploaded file, if any, as its image. */
  method CreateCategory(db: Db, name: Option<string>, file: Option<string>, newId: int) returns (reply: Reply)
    requires newId !in db.categories
    modifies db`categories
    ensures !Truthy(name) ==> reply == Reply(400, "Nombre de categoría es requerido") && unchanged(db)
    ensures Truthy(name) ==>
      && reply == Reply(201, "Categoría creada exitosamente")
      && newId in db.categories
      && db.categories == old(db.categories)[newId := Category(newId, name.value, db.categories[newId].slug, file, true)]
      && FirstFree(Slugify(name.value), CategorySlugs(old(db.categories)), db.categories[newId].slug)
  {
    if !Truthy(name) {
      return Reply(400, "Nombre de categoría es requerido");
    }
    var slug := UniqueSlug(Slugify(name.value), CategorySlugs(db.categories));
    db.categories := db.categories[newId := Category(newId, name.value, slug, file, true)];
    reply := Reply(201, "Categoría creada exitosamente");
  }

  /** The assignment an uploaded category image adds to the UPDATE. */
  function ImageAssignment(file: Option<string>): seq<(string, Value)> {
    if file.Some? then [("image", Str(file.value))] else []
  }

  /** One `key = ?` assignment of an UPDATE applied to a category row, for the columns the
      model keeps; any other column leaves the modelled row as it is. */
  function SetCategoryColumn(c: Category, key: string, v: Value): (r: Category)
    ensures r.id == c.id
    ensures key != "name" ==> r.name == c.name
    ensures key != "slug" ==> r.slug == c.slug
    ensures key != "image" ==> r.image == c.image
    ensures key != "is_active" ==> r.isActive == c.isActive
  {
    if key == "name" && SqlText(v).Some? then c.(name := SqlText(v).value)
    else if key == "slug" && SqlText(v).Some? then c.(slug := SqlText(v).value)
    else if key == "image" && v.Null? then c.(image := None)
    else if key == "image" && SqlText(v).Some? then c.(image := Some(SqlText(v).value))
    else if key == "is_active" && SqlInt(v).Some? then c.(isActive := SqlInt(v).value != 0)
    else c
  }

  /** The row an `UPDATE categories SET … WHERE id = ?` leaves: the assignments applied left
      to right; a column no assignment names keeps its value, and the id never changes. */
  function ApplyCategory(c: Category, entries: seq<(string, Value)>): (r: Category)
    ensures r.id == c.id
    ensures (forall e :: e in entries ==> e.0 != "name") ==> r.name == c.name
    ensures (forall e :: e in entries ==> e.0 != "slug") ==> r.slug == c.slug
    ensures (forall e :: e in entries ==> e.0 != "image") ==> r.image == c.image
    ensures (forall e :: e in entries ==> e.0 != "is_active") ==> r.isActive == c.isActive
  {
    if entries == [] then c
    else
      var e := entries[|entries| - 1];
      assert forall x :: x in entries[..|entries| - 1] ==> x in entries;
      SetCategoryColumn(ApplyCategory(c, entries[..|entries| - 1]), e.0, e.1)
  }

  /** An uploaded image always ends up as the category's image: it is assigned after every
      body field, and a body `image` field is never assigned. */
  lemma UploadedCategoryImageWins(c: Category, body: seq<(string, Value)>, file: string)
    ensures ApplyCategory(c, Assigned(body, "image") + ImageAssignment(Some(file))).image == Some(file)
  {
    var entries := Assigned(body, "image") + ImageAssignment(Some(file));
    assert entries[..|entries| - 1] == Assigned(body, "image");
  }

  /** Without an upload, the category's image is left as it was, whatever the body says. */
  lemma CategoryImageKeptWithoutUpload(c: Category, body: seq<(string, Value)>)
    ensures ApplyCategory(c, Assigned(body, "image") + ImageAssignment(None)).image == c.image
  {
    AssignedMembers(body, "image");
    assert Assigned(body, "image") + ImageAssignment(None) == Assigned(body, "image");
  }

  /** `PUT /admin/categories/:id`: 404 for an unknown category; otherwise the UPDATE of every
      body field but `id` and `image`, followed by the uploaded image, is applied to the row. */
  method UpdateCategory(db: Db, id: int, body: seq<(string, Value)>, file: Option<string>)
    returns (reply: Reply, stmt: Option<Statement>)
    modifies db`categories
    ensures id !in old(db.categories) ==>
      reply == Reply(404, "Categoría no encontrada") && stmt.None? && unchanged(db)
    ensures id in old(db.categories) ==>
      var entries := Assigned(body, "image") + ImageAssignment(file);
      && reply == Reply(200, "Categoría actualizada exitosamente")
      && (stmt.None? <==> entries == [])
      && (stmt.Some? ==> stmt.value == UpdateStatement("categories", entries, Int(id)))
      && db.categories == old(db.categories)[id := ApplyCategory(old(db.categories)[id], entries)]
  {
    if id !in db.categories {
      return Reply(404, "Categoría no encontrada"), None;
    }
    var extra: seq<(string, Value)> := [];
    if file.Some? {
      extra := [("image", Str(file.value))];
    }
    stmt := BuildUpdate("categories", body, "image", extra, Int(id));
    var entries := Assigned(body, "image") + extra;
    if stmt.Some? {
      db.categories := db.categories[id := ApplyCategory(db.categories[id], entries)];
    } else {
      assert db.categories[id := ApplyCategory(db.categories[id], [])] == db.categories;
    }
    reply := Reply(200, "Categoría actualizada exitosamente");
  }

  /** `DELETE /admin/categories/:id`: 404 for an unknown category, 400 while a product is
      filed under it; otherwise the category row is removed. */
  method DeleteCategory(db: Db, id: int) returns (reply: Reply)
    modifies db`categories
    ensures id !in old(db.categories) ==> reply == Reply(404, "Categoría no encontrada") && unchanged(db)
    ensures id in old(db.categories) && CategoryInUse(db.products, id) ==>
      reply == Reply(400, "No se puede eliminar una categoría que tiene productos") && unchanged(db)
    ensures id in old(db.categories) && !CategoryInUse(db.products, id) ==>
      reply == Reply(200, "Categoría eliminada exitosamente") && db.categories == old(db.categories) - {id}
  {
    if id !in db.categories {
      return Reply(404, "Categoría no encontrada");
    }
    if CategoryInUse(db.products, id) {
      return Reply(400, "No se puede eliminar una categoría que tiene productos");
    }
    db.categories := db.categories - {id};
    reply := Reply(200, "Categoría eliminada exitosamente");
  }

  /** The delete guard keeps every product's category resolvable, and a guarded delete of a
      category in use would have broken it. */
  lemma DeleteCategoryGuard(products: map<int, Product>, categories: map<int, Category>, id: int)
    requires CategoriesResolve(products, categories)
    ensures CategoriesResolve(products, categories - {id}) <==> !CategoryInUse(products, id)
  {
    if CategoryInUse(products, id) {
      var p :| p in products && products[p].categoryId == Some(id);
      assert products[p].categoryId.value !in categories - {id};
    }
  }

  // ---------------------------------------------------------------------------
  // Orders
  // ---------------------------------------------------------------------------

  const OrderStatuses: seq<string> := ["pending", "processing", "shipped", "delivered", "cancelled", "refunded"]

  /** `validStatuses.includes(status)` for a body value: only one of the six strings. */
  predicate ValidStatus(v: Value) {
    v.Str? && v.s in OrderStatuses
  }

  predicate StatusesValid(orders: map<int, Order>) {
    forall id :: id in orders ==> orders[id].status in OrderStatuses
  }

  /** `PUT /admin/orders/:id/status`: an unknown status is refused before the order is
      looked up; an unknown order gets 404; otherwise its status is replaced. */
  method UpdateOrderStatus(db: Db, id: int, status: Value) returns (reply: Reply)
    modifies db`orders
    ensures !ValidStatus(status) ==> reply == Reply(400, "Estado inválido") && unchanged(db)
    ensures ValidStatus(status) && id !in old(db.orders) ==>
      reply == Reply(404, "Pedido no encontrado") && unchanged(db)
    ensures ValidStatus(status) && id in old(db.orders) ==>
      && reply == Reply(200, "Estado del pedido actualizado exitosamente")
      && db.orders == old(db.orders)[id := old(db.orders)[id].(status := status.s)]
  {
    if !ValidStatus(status) {
      return Reply(400, "Estado inválido");
    }
    if id !in db.orders {
      return Reply(404, "Pedido no encontrado");
    }
    db.orders := db.orders[id := db.orders[id].(status := status.s)];
    reply := Reply(200, "Estado del pedido actualizado exitosamente");
  }

  /** Status updates that pass the check keep every stored status among the six. */
  lemma SetStatusKeepsValid(orders: map<int, Order>, id: int, status: Value)
    requires StatusesValid(orders) && ValidStatus(status) && id in orders
    ensures StatusesValid(orders[id := orders[id].(status := status.s)])
  {
  }

  // ---------------------------------------------------------------------------
  // Upload filter
  // ---------------------------------------------------------------------------

  function StripTrailingSlashes(p: string): (r: string)
    ensures |r| <= |p| && r == p[..|r|]
    ensures r == [] || r[|r| - 1] != '/'
  {
    if p != [] && p[|p| - 1] == '/' then StripTrailingSlashes(p[..|p| - 1]) else p
  }

  /** What follows the last `/`. */
  function LastSegment(p: string): (r: string)
    ensures |r| <= |p| && r == p[|p| - |r|..]
    ensures '/' !in r
    ensures '/' !in p ==> r == p
  {
    if p == [] || p[|p| - 1] == '/' then [] else LastSegment(p[..|p| - 1]) + [p[|p| - 1]]
  }

  /** The index of the last `.`, or -1. */
  function LastDot(b: string): (d: int)
    ensures -1 <= d < |b|
    ensures d >= 0 ==> b[d] == '.'
    ensures forall i :: d < i < |b| ==> b[i] != '.'
  {
    if b == [] then -1 else if b[|b| - 1] == '.' then |b| - 1 else LastDot(b[..|b| - 1])
  }

  /** `path.extname` for POSIX paths: from the last `.` of the last segment to its end; empty
      when that segment has no dot, starts with its only dot, or is `..`. */
  function ExtName(path: string): string {
    var b := LastSegment(StripTrailingSlashes(path));
    var d := LastDot(b);
    if d <= 0 || b == ".." then "" else b[d..]
  }

  lemma ExtNameOfFileName(stem: string, ext: string)
    requires stem != [] && ext != []
    requires '/' !in stem && '/' !in ext && '.' !in ext
    ensures ExtName(stem + "." + ext) == "." + ext
  {
    var p := stem + "." + ext;
    assert p[|p| - 1] == ext[|ext| - 1];
    assert StripTrailingSlashes(p) == p;
    assert '/' !in p by {
      forall i | 0 <= i < |p| ensures p[i] != '/' {
        if i < |stem| { assert p[i] == stem[i]; }
        else if i > |stem| { assert p[i] == ext[i - |stem| - 1]; }
      }
    }
    var d := LastDot(p);
    assert p[|stem|] == '.';
    assert forall i :: |stem| < i < |p| ==> p[i] == ext[i - |stem| - 1];
    assert d == |stem|;
    assert p[d..] == "." + ext;
    assert p != ".." by {
      assert p[|p| - 1] != '.';
    }
  }

  const ImageTypes: seq<string> := ["jpeg", "jpg", "png", "gif", "webp"]

  /** `/jpeg|jpg|png|gif|webp/.test(s)`: one of the alternatives occurs somewhere in `s`. */
  predicate MatchesImageType(s: string) {
    exists w :: w in ImageTypes && Contains(s, w)
  }

  datatype Upload = Accept | Refuse(message: string)

  /** `fileFilter`: both the lower-cased extension and the mimetype must name an image type. */
  function FileFilter(originalName: string, mimetype: string): (r: Upload)
    ensures r.Accept? <==> MatchesImageType(Lower(ExtName(originalName))) && MatchesImageType(mimetype)
    ensures r.Refuse? ==> r.message == "Solo se permiten imágenes (jpeg, jpg, png, gif, webp)"
  {
    if MatchesImageType(mimetype) && MatchesImageType(Lower(ExtName(originalName))) then Accept
    else Refuse("Solo se permiten imágenes (jpeg, jpg, png, gif, webp)")
  }

  lemma ContainsAfterChar(c: char, s: string, w: string)
    requires Contains(s, w)
    ensures Contains([c] + s, w)
  {
    assert ([c] + s)[1..] == s;
  }

  /** A file named `stem.ext` whose extension names an image type, sent with an image
      mimetype, is accepted whatever the case of the extension. */
  lemma FileFilterAcceptsImages(stem: string, ext: string, mimetype: string)
    requires stem != [] && ext != [] && '/' !in stem && '/' !in ext && '.' !in ext
    requires MatchesImageType(Lower(ext)) && MatchesImageType(mimetype)
    ensures FileFilter(stem + "." + ext, mimetype) == Accept
  {
    var name := stem + "." + ext;
    ExtNameOfFileName(stem, ext);
    LowerAfterChar('.', ext);
    MatchesAfterChar('.', Lower(ext));
    assert ExtName(name) == "." + ext;
    assert MatchesImageType(Lower(ExtName(name)));
  }

  lemma LowerAfterChar(c: char, s: string)
    requires !('A' <= c <= 'Z')
    ensures Lower([c] + s) == [c] + Lower(s)
  {
  }

  lemma MatchesAfterChar(c: char, s: string)
    requires MatchesImageType(s)
    ensures MatchesImageType([c] + s)
  {
    var w :| w in ImageTypes && Contains(s, w);
    ContainsAfterChar(c, s, w);
  }

  /** A name without a dot has no extension, so the filter refuses it. */
  lemma FileFilterNeedsExtension(name: string, mimetype: string)
    requires '.' !in name
    ensures FileFilter(name, mimetype).Refuse?
  {
    var t := StripTrailingSlashes(name);
    var b := LastSegment(t);
    assert forall i :: 0 <= i < |b| ==> b[i] == name[|t| - |b| + i];
    assert LastDot(b) == -1;
  }

  // ---------------------------------------------------------------------------
  // List queries
  // ---------------------------------------------------------------------------

  /** `query += cond; params.push(...values)` when the filter is present. */
  function AndIf(q: Statement, present: bool, cond: string, values: seq<Value>): Statement {
    if present then Statement(q.sql + cond, q.params + values) else q
  }

  /** Appending a filter commutes with the text in front of the query. */
  lemma AndIfUnderHead(head: string, q: Statement, present: bool, cond: string, values: seq<Value>)
    ensures AndIf(Statement(head + q.sql, q.params), present, cond, values)
         == Statement(head + AndIf(q, present, cond, values).sql, AndIf(q, present, cond, values).params)
  {
    assert head + q.sql + cond == head + (q.sql + cond);
  }

  const ProductsSelect: string :=
    "SELECT p.*, c.name as category_name, c.slug as category_slug, (SELECT image_url FROM product_images WHERE product_id = p.id AND is_primary = 1 LIMIT 1) as primary_image FROM products p LEFT JOIN categories c ON p.category_id = c.id WHERE 1=1"
  const ProductsCount: string := "SELECT COUNT(*) as total FROM products p LEFT JOIN categories c ON p.category_id = c.id WHERE 1=1"
  const ProductsOrder: string := " ORDER BY p.created_at DESC LIMIT ? OFFSET ?"
  const ProductCategoryCond: string := " AND c.slug = ?"
  const ProductSearchCond: string := " AND (p.name LIKE ? OR p.description LIKE ? OR p.sku LIKE ?)"
  const ProductActiveCond: string := " AND p.is_active = 1"
  const ProductInactiveCond: string := " AND p.is_active = 0"

  function OptionValue(p: Option<string>): seq<Value> {
    if p.Some? then [Str(p.value)] else []
  }

  /** The `%search%` pattern, bound `n` times (once per searched column). */
  function SearchValues(search: Option<string>, n: nat): (r: seq<Value>)
    ensures |r| == (if search.Some? then n else 0)
    ensures forall v :: v in r ==> v == Str(LikePattern(search.value))
  {
    if search.None? || n == 0 then [] else SearchValues(search, n - 1) + [Str(LikePattern(search.value))]
  }

  /** The admin product list's filters appended to `head`, in the handler's order: category,
      search, then status (`active` or `inactive` only). */
  function ProductsFiltered(head: string, category: Option<string>, search: Option<string>,
                            status: Option<string>): (q: Statement)
    ensures |q.params| == (if Truthy(category) then 1 else 0) + (if Truthy(search) then 3 else 0)
  {
    var q1 := AndIf(Statement(head, []), Truthy(category), ProductCategoryCond, OptionValue(category));
    var q2 := AndIf(q1, Truthy(search), ProductSearchCond, SearchValues(search, 3));
    var q3 := AndIf(q2, status == Some("active"), ProductActiveCond, []);
    AndIf(q3, status != Some("active") && status == Some("inactive"), ProductInactiveCond, [])
  }

  /** The count query mirrors the data query: any two heads receive the same filter text and
      the same parameters. */
  lemma ProductsFilterMirrored(head: string, category: Option<string>, search: Option<string>, status: Option<string>)
    ensures var f := ProductsFiltered("", category, search, status);
      ProductsFiltered(head, category, search, status) == Statement(head + f.sql, f.params)
  {
    var e := Statement("", []);
    assert Statement(head, []) == Statement(head + e.sql, e.params);
    var q1 := AndIf(e, Truthy(category), ProductCategoryCond, OptionValue(category));
    AndIfUnderHead(head, e, Truthy(category), ProductCategoryCond, OptionValue(category));
    var q2 := AndIf(q1, Truthy(search), ProductSearchCond, SearchValues(search, 3));
    AndIfUnderHead(head, q1, Truthy(search), ProductSearchCond, SearchValues(search, 3));
    var q3 := AndIf(q2, status == Some("active"), ProductActiveCond, []);
    AndIfUnderHead(head, q2, status == Some("active"), ProductActiveCond, []);
    AndIfUnderHead(head, q3, status != Some("active") && status == Some("inactive"), ProductInactiveCond, []);
  }

  /** `GET /admin/products`: the data query and the count query are built side by side from
      the same filters; only the data query is ordered and paged. */
  method AdminProductsQueries(category: Option<string>, search: Option<string>, status: Option<string>,
                              page: int, limit: int) returns (data: Statement, count: Statement)
    ensures var f := ProductsFiltered("", category, search, status);
      && data == Statement(ProductsSelect + f.sql + ProductsOrder, f.params + [Int(limit), Int(Offset(page, limit))])
      && count == Statement(ProductsCount + f.sql, f.params)
  {
    var query, params := ProductsSelect, [];
    if Truthy(category) {
      query := query + ProductCategoryCond;
      params := params + [Str(category.value)];
    }
    if Truthy(search) {
      query := query + ProductSearchCond;
      params := params + SearchValues(search, 3);
    }
    if status == Some("active") {
      query := query + ProductActiveCond;
    } else if status == Some("inactive") {
      query := query + ProductInactiveCond;
    }
    assert Statement(query, params) == ProductsFiltered(ProductsSelect, category, search, status);
    query := query + ProductsOrder;
    params := params + [Int(limit), Int((page - 1) * limit)];
    data := Statement(query, params);

    var countQuery, countParams := ProductsCount, [];
    if Truthy(category) {
      countQuery := countQuery + ProductCategoryCond;
      countParams := countParams + [Str(category.value)];
    }
    if Truthy(search) {
      countQuery := countQuery + ProductSearchCond;
      countParams := countParams + SearchValues(search, 3);
    }
    if status == Some("active") {
      countQuery := countQuery + ProductActiveCond;
    } else if status == Some("inactive") {
      countQuery := countQuery + ProductInactiveCond;
    }
    count := Statement(countQuery, countParams);
    assert count == ProductsFiltered(ProductsCount, category, search, status);
    ProductsFilterMirrored(ProductsSelect, category, search, status);
    ProductsFilterMirrored(ProductsCount, category, search, status);
  }

  /** The filter text depends only on which filters are present, never on their values:
      the values travel as parameters. */
  lemma ProductsFilterTextIgnoresValues(c1: Option<string>, s1: Option<string>, c2: Option<string>,
                                        s2: Option<string>, status: Option<string>)
    requires Truthy(c1) == Truthy(c2) && Truthy(s1) == Truthy(s2)
    ensures ProductsFiltered("", c1, s1, status).sql == ProductsFiltered("", c2, s2, status).sql
  {
  }

  const OrdersSelect: string :=
    "SELECT o.*, c.first_name, c.last_name, c.email FROM orders o LEFT JOIN customers c ON o.customer_id = c.id WHERE 1=1"
  const OrdersCount: string := "SELECT COUNT(*) as total FROM orders o LEFT JOIN customers c ON o.customer_id = c.id WHERE 1=1"
  const OrdersOrder: string := " ORDER BY o.created_at DESC LIMIT ? OFFSET ?"
  const OrderStatusCond: string := " AND o.status = ?"
  const OrderSearchCond: string :=
    " AND (o.order_number LIKE ? OR c.first_name LIKE ? OR c.last_name LIKE ? OR c.email LIKE ?)"

  /** The admin order list's filters appended to `head`: status, then search. */
  function OrdersFiltered(head: string, status: Option<string>, search: Option<string>): (q: Statement)
    ensures |q.params| == (if Truthy(status) then 1 else 0) + (if Truthy(search) then 4 else 0)
  {
    var q1 := AndIf(Statement(head, []), Truthy(status), OrderStatusCond, OptionValue(status));
    AndIf(q1, Truthy(search), OrderSearchCond, SearchValues(search, 4))
  }

  lemma OrdersFilterMirrored(head: string, status: Option<string>, search: Option<string>)
    ensures var f := OrdersFiltered("", status, search);
      OrdersFiltered(head, status, search) == Statement(head + f.sql, f.params)
  {
    var e := Statement("", []);
    assert Statement(head, []) == Statement(head + e.sql, e.params);
    var q1 := AndIf(e, Truthy(status), OrderStatusCond, OptionValue(status));
    AndIfUnderHead(head, e, Truthy(status), OrderStatusCond, OptionValue(status));
    AndIfUnderHead(head, q1, Truthy(search), OrderSearchCond, SearchValues(search, 4));
  }

  /** `GET /admin/orders`: the data query and its count, built from the same filters. */
  method AdminOrdersQueries(status: Option<string>, search: Option<string>, page: int, limit: int)
    returns (data: Statement, count: Statement)
    ensures var f := OrdersFiltered("", status, search);
      && data == Statement(OrdersSelect + f.sql + OrdersOrder, f.params + [Int(limit), Int(Offset(page, limit))])
      && count == Statement(OrdersCount + f.sql, f.params)
  {
    var query, params := OrdersSelect, [];
    if Truthy(status) {
      query := query + OrderStatusCond;
      params := params + [Str(status.value)];
    }
    if Truthy(search) {
      query := query + OrderSearchCond;
      params := params + SearchValues(search, 4);
    }
    assert Statement(query, params) == OrdersFiltered(OrdersSelect, status, search);
    query := query + OrdersOrder;
    params := params + [Int(limit), Int((page - 1) * limit)];
    data := Statement(query, params);

    var countQuery, countParams := OrdersCount, [];
    if Truthy(status) {
      countQuery := countQuery + OrderStatusCond;
      countParams := countParams + [Str(status.value)];
    }
    if Truthy(search) {
      countQuery := countQuery + OrderSearchCond;
      countParams := countParams + SearchValues(search, 4);
    }
    count := Statement(countQuery, countParams);
    assert count == OrdersFiltered(OrdersCount, status, search);
    OrdersFilterMirrored(OrdersSelect, status, search);
    OrdersFilterMirrored(OrdersCount, status, search);
  }

  /** For a positive limit, a page starts before the last row exactly when it is not past
      the page count `Math.ceil(total / limit)` both admin lists report. */
  lemma AdminPagesCoverRows(total: nat, page: int, limit: int)
    requires limit > 0 && page >= 1
    ensures Offset(page, limit) < total <==> page <= PageCountOf(total, limit).n
  {
    var n := PageCountOf(total, limit).n;
    if page <= n {
      MulMonotone(page - 1, n - 1, limit);
    } else {
      MulMonotone(n, page - 1, limit);
    }
  }
}
