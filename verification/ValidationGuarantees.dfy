/** When a validation report is valid, in terms of the files. */
module ValidationGuarantees {
  import opened Text
  import opened CatalogValidation
  import opened ValidationLaws

  // ---------- distinct codes ----------

  predicate Distinct<T(==)>(s: seq<T>) {
    forall i, j | 0 <= i < j < |s| :: s[i] != s[j]
  }

  lemma {:induction false} DistinctByCounting<T>(s: seq<T>)
    ensures |SetOf(s)| <= |s|
    ensures |SetOf(s)| == |s| <==> Distinct(s)
  {
    if s != [] {
      var front, last := s[..|s| - 1], s[|s| - 1];
      DistinctByCounting(front);
      assert SetOf(s) == SetOf(front) + {last};
      if last in front {
        assert SetOf(s) == SetOf(front);
        var i :| 0 <= i < |front| && front[i] == last;
        assert s[i] == s[|s| - 1];
      } else if Distinct(front) {
        forall i, j | 0 <= i < j < |s| ensures s[i] != s[j] {
          assert s[i] in front;
        }
      } else {
        var i, j :| 0 <= i < j < |front| && front[i] == front[j];
        assert s[i] == s[j];
      }
    } else {
      assert SetOf(s) == {};
    }
  }

  lemma MembersOfLast<T>(s: seq<T>)
    requires s != []
    ensures forall x :: x in s <==> x in s[..|s| - 1] || x == s[|s| - 1]
  {
    assert s == s[..|s| - 1] + [s[|s| - 1]];
  }

  // ---------- what a valid file looks like ----------

  predicate Fits(r: Registry, category: string, d: Attribute, values: map<string, Field>) {
    if d.key in values then r.reject(category, d.key, values[d.key]).None? else !d.required
  }

  predicate AttributesFit(r: Registry, category: string, a: Attributes) {
    && a.Object?
    && (category in r.definitions ==>
          && a.values.Keys <= KeysOf(r.definitions[category])
          && forall d | d in r.definitions[category] :: Fits(r, category, d, a.values))
  }

  predicate CleanSku(sku: Sku) {
    && HasCode(sku.code) && ValidStatus(sku.status) && sku.money.Some? && ValidCurrency(sku.currency)
    && sku.inventory.Whole? && sku.inventory.n >= 0
  }

  predicate CleanProduct(r: Registry, category: string, p: Product) {
    && HasCode(p.code) && HasCode(p.legacy) && ValidStatus(p.status) && AttributesFit(r, category, p.attributes)
    && r.document(p.legacy.s) == Some(p.legacy.s) && CleanSku(p.sku)
  }

  predicate CleanFile(r: Registry, file: SeedFile) {
    && file.content.Seed?
    && var category := Printed(file.content.category);
       && category in r.definitions && SetOf(file.content.definitions) == KeysOf(r.definitions[category])
       && forall p | p in file.content.products :: CleanProduct(r, category, p)
  }

  /** Every key of a set is listed, once. */
  ghost predicate Lists(listed: set<string> -> seq<string>) {
    forall keys :: SetOf(listed(keys)) == keys && |listed(keys)| == |keys|
  }

  lemma {:induction false} NothingUndeclared(keys: seq<string>, declared: set<string>, category: string, path: string)
    ensures UndeclaredIssues(keys, declared, category, path) == [] <==> forall k | k in keys :: k in declared
  {
    if keys != [] {
      NothingUndeclared(keys[..|keys| - 1], declared, category, path);
      assert keys == keys[..|keys| - 1] + [keys[|keys| - 1]];
    }
  }

  lemma AttributeFinding(r: Registry, category: string, d: Attribute, values: map<string, Field>, path: string)
    ensures AttributeIssue(r, category, d, values, path) == [] <==> Fits(r, category, d, values)
  {
  }

  lemma {:induction false} NothingAmiss(r: Registry, category: string, declared: seq<Attribute>, values: map<string, Field>, path: string)
    ensures DeclaredIssues(r, category, declared, values, path) == [] <==> forall d | d in declared :: Fits(r, category, d, values)
  {
    if declared != [] {
      NothingAmiss(r, category, declared[..|declared| - 1], values, path);
      AttributeFinding(r, category, declared[|declared| - 1], values, path);
      MembersOfLast(declared);
    }
  }

  lemma AttributesFitting(r: Registry, category: string, a: Attributes, path: string)
    requires Lists(r.listed) && a.Object?
    ensures ValueIssues(r, category, a, path) == [] <==> AttributesFit(r, category, a)
  {
    if category in r.definitions {
      var declared := r.definitions[category];
      var keys := r.listed(a.values.Keys);
      assert SetOf(keys) == a.values.Keys;
      NothingUndeclared(keys, KeysOf(declared), category, path);
      NothingAmiss(r, category, declared, a.values, path);
    }
  }

  lemma {:induction false} NothingAboutKeys(keys: seq<string>, code: IssueCode, path: string, category: string)
    ensures |KeyIssues(keys, code, path, category)| == |keys|
  {
    if keys != [] {
      NothingAboutKeys(keys[..|keys| - 1], code, path, category);
    }
  }

  lemma ProductFindings(r: Registry, category: string, p: Product, path: string)
    requires Lists(r.listed)
    ensures ProductIssues(r, category, p, path) == [] <==> ValidStatus(p.status) && AttributesFit(r, category, p.attributes)
  {
    if p.attributes.Object? {
      AttributesFitting(r, category, p.attributes, path + ":attributes");
    }
  }

  lemma OwnProductFindings(r: Registry, category: string, p: Product, path: string)
    requires Lists(r.listed)
    ensures OwnProductIssues(r, category, p, path) == [] <==> CleanProduct(r, category, p)
  {
    ProductFindings(r, category, p, path);
    if HasCode(p.legacy) {
    }
  }

  lemma {:induction false} OwnProductsFindings(r: Registry, file: string, category: string, products: seq<Product>)
    requires Lists(r.listed)
    ensures OwnProductsIssues(r, file, category, products) == [] <==> forall p | p in products :: CleanProduct(r, category, p)
  {
    if products != [] {
      var n := |products| - 1;
      OwnProductsFindings(r, file, category, products[..n]);
      OwnProductFindings(r, category, products[n], ProductPath(file, n));
      MembersOfLast(products);
    }
  }

  lemma OwnFindings(r: Registry, file: SeedFile)
    requires Lists(r.listed)
    ensures OwnIssues(r, file) == [] <==> CleanFile(r, file)
  {
    if file.content.Seed? {
      var category := Printed(file.content.category);
      OwnProductsFindings(r, file.path, category, file.content.products);
      if category in r.definitions {
      }
    }
  }

  lemma {:induction false} AllFindings(r: Registry, files: seq<SeedFile>)
    requires Lists(r.listed)
    ensures Complaints(r, files) == [] <==> forall f | f in files :: CleanFile(r, f)
  {
    if files != [] {
      var n := |files| - 1;
      AllFindings(r, files[..n]);
      OwnFindings(r, files[n]);
      MembersOfLast(files);
    }
  }

  // ---------- validity ----------

  predicate DistinctCodes(files: seq<SeedFile>) {
    && Distinct(CategoriesOf(files)) && Distinct(CodesOf(files, ProductCode))
    && Distinct(CodesOf(files, LegacyId)) && Distinct(CodesOf(files, SkuCode))
  }

  predicate Unrepeated(files: seq<SeedFile>, code: IssueCode) {
    match code
    case DuplicateCode(kind) => Distinct(CodesOf(files, kind))
    case DuplicateCategory => Distinct(CategoriesOf(files))
    case _ => true
  }

  lemma {:induction false} NothingRepeated(r: Registry, files: seq<SeedFile>, code: IssueCode)
    ensures Count(Visit(r, files).issues, code) == 0 <==> Count(Complaints(r, files), code) == 0 && Unrepeated(files, code)
  {
    IssuesInClosedForm(r, files, code);
    DistinctByCounting(CategoriesOf(files));
    if code.DuplicateCode? {
      DistinctByCounting(CodesOf(files, code.kind));
    }
  }

  lemma NoRepeats(files: seq<SeedFile>)
    ensures DistinctCodes(files) <==> forall c :: Unrepeated(files, c)
  {
    if DistinctCodes(files) {
      forall c ensures Unrepeated(files, c) {
        if c.DuplicateCode? {
          assert c.kind == ProductCode || c.kind == LegacyId || c.kind == SkuCode;
        }
      }
    }
    if forall c :: Unrepeated(files, c) {
      assert Unrepeated(files, DuplicateCode(ProductCode)) && Unrepeated(files, DuplicateCode(LegacyId));
      assert Unrepeated(files, DuplicateCode(SkuCode)) && Unrepeated(files, DuplicateCategory);
    }
  }

  lemma IssuesExactly(r: Registry, files: seq<SeedFile>)
    ensures Visit(r, files).issues == [] <==> Complaints(r, files) == [] && DistinctCodes(files)
  {
    NoneCounted(Visit(r, files).issues);
    NoneCounted(Complaints(r, files));
    NoRepeats(files);
    forall c ensures Count(Visit(r, files).issues, c) == 0 <==> Count(Complaints(r, files), c) == 0 && Unrepeated(files, c) {
      NothingRepeated(r, files, c);
    }
  }

  /** A report is valid exactly when every file is clean on its own and no category, product, legacy or
      SKU code is repeated anywhere in the files. */
  lemma ValidExactly(r: Registry, files: seq<SeedFile>)
    requires Lists(r.listed)
    ensures ReportOf(Visit(r, files)).valid <==> (forall f | f in files :: CleanFile(r, f)) && DistinctCodes(files)
  {
    IssuesExactly(r, files);
    AllFindings(r, files);
  }
}
