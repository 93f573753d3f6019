/** The issues of a validation report, one by one: each names a fault at its place, with its text, and every fault
    has its issue. */
module ValidationIssues {
  import opened Sequences
  import opened Text
  import opened CatalogValidation
  import opened ValidationLaws
  import opened ValidationGuarantees

  // ---------- what a fault is ----------

  /** A member as a message shows it. */
  function NameOf(f: Field): string {
    match f
    case Missing => "None"
    case Text(s) => s
    case Other(printed, _) => printed
  }

  predicate IsStatus(f: Field) {
    f == Text("draft") || f == Text("active") || f == Text("inactive")
  }

  predicate IsCapital(c: char) { 65 <= c as int <= 90 }

  /** Three capital letters. */
  predicate IsCurrency(f: Field) {
    match f
    case Text(s) => |s| == 3 && IsCapital(s[0]) && IsCapital(s[1]) && IsCapital(s[2])
    case _ => false
  }

  /** A text that is not blank. */
  predicate IsCoded(f: Field) {
    match f
    case Text(s) => exists i | 0 <= i < |s| :: !IsSpace(s[i])
    case _ => false
  }

  /** A member the code takes for true. */
  predicate IsGiven(f: Field) {
    match f
    case Missing => false
    case Text(s) => |s| > 0
    case Other(_, truthy) => truthy
  }

  predicate SkuFault(p: Product, at: string, x: Issue) {
    || (x == Issue(InvalidSkuStatus, at, NameOf(p.sku.status)) && !IsStatus(p.sku.status))
    || (x == Issue(MoneyInvalid, at + ":money_amount", p.sku.amount) && p.sku.money == None)
    || (x == Issue(CurrencyInvalid, at + ":currency", NameOf(p.sku.currency)) && !IsCurrency(p.sku.currency))
    || match p.sku.inventory
       case Whole(n) => n < 0 && x == Issue(InventoryInvalid, at + ":inventory", "-" + Decimal(-n))
       case NotWhole(printed) => x == Issue(InventoryInvalid, at + ":inventory", printed)
  }

  predicate DocumentFault(r: Registry, p: Product, x: Issue) {
    var id := NameOf(p.legacy);
    IsGiven(p.legacy)
    && match r.document(id)
       case None => x == Issue(DocumentMissing, r.documentPath(id), id)
       case Some(stem) => x == Issue(DocumentIdentityMismatch, r.documentPath(id), id) && p.legacy != Text(stem)
  }

  predicate UndeclaredFault(declared: seq<Attribute>, values: map<string, Field>, name: string, at: string, x: Issue) {
    exists key | key in values :: x == Issue(UnknownAttribute, at + "." + key, name) && !Declares(declared, key)
  }

  predicate Declares(declared: seq<Attribute>, key: string) {
    exists i | 0 <= i < |declared| :: declared[i].key == key
  }

  predicate DeclaredFault(r: Registry, d: Attribute, values: map<string, Field>, name: string, at: string, x: Issue) {
    if d.key in values then
      r.reject(name, d.key, values[d.key]).Some?
      && x == Issue(AttributeTypeInvalid, at + "." + d.key, r.reject(name, d.key, values[d.key]).value)
    else d.required && x == Issue(RequiredAttributeMissing, at + "." + d.key, name)
  }

  predicate AttributeFault(r: Registry, name: string, values: map<string, Field>, at: string, x: Issue) {
    name in r.definitions
    && (UndeclaredFault(r.definitions[name], values, name, at, x)
        || exists i | 0 <= i < |r.definitions[name]| :: DeclaredFault(r, r.definitions[name][i], values, name, at, x))
  }

  predicate ProductFault(r: Registry, name: string, p: Product, at: string, x: Issue) {
    || (x == Issue(InvalidProductStatus, at, NameOf(p.status)) && !IsStatus(p.status))
    || (x == Issue(ProductAttributesInvalid, at, "attributes must be an object") && p.attributes == NotAnObject)
    || AttributeFault(r, name, if p.attributes.Object? then p.attributes.values else map[], at + ":attributes", x)
  }

  /** A code that is not there, or was there before. */
  predicate CodeFault(f: Field, kind: CodeKind, required: string, seen: bool, at: string, x: Issue) {
    if IsCoded(f) then seen && x == Issue(DuplicateCode(kind), at, f.s) else x == Issue(CodeMissing(kind), at, required)
  }

  /** Another product before product i has the code. */
  predicate SeenIn(products: seq<Product>, i: nat, kind: CodeKind, f: Field)
    requires i <= |products|
  {
    exists j | 0 <= j < i :: FieldOf(products[j], kind) == f
  }

  /** An earlier file, or the same file before product i, has the code. */
  predicate SeenBefore(files: seq<SeedFile>, h: nat, i: nat, kind: CodeKind, f: Field)
    requires h < |files| && i <= |ProductsIn(files[h])|
  {
    || SeenIn(ProductsIn(files[h]), i, kind, f)
    || exists g | 0 <= g < h :: SeenIn(ProductsIn(files[g]), |ProductsIn(files[g])|, kind, f)
  }

  /** The faults of product i of file h. */
  predicate VisitFault(r: Registry, files: seq<SeedFile>, h: nat, i: nat, name: string, x: Issue)
    requires h < |files| && i < |ProductsIn(files[h])|
  {
    var p, at := ProductsIn(files[h])[i], files[h].path + ":products[" + Decimal(i) + "]";
    || CodeFault(p.code, ProductCode, "product_code is required", SeenBefore(files, h, i, ProductCode, p.code), at, x)
    || CodeFault(p.legacy, LegacyId, "legacy_product_id is required", SeenBefore(files, h, i, LegacyId, p.legacy), at, x)
    || CodeFault(p.sku.code, SkuCode, "sku_code is required", SeenBefore(files, h, i, SkuCode, p.sku.code), at + ":sku", x)
    || ProductFault(r, name, p, at, x) || SkuFault(p, at + ":sku", x) || DocumentFault(r, p, x)
  }

  predicate HeadFault(r: Registry, files: seq<SeedFile>, h: nat, x: Issue)
    requires h < |files| && files[h].content.Seed?
  {
    var c, at := files[h].content, files[h].path;
    var name := NameOf(c.category);
    || (x == Issue(DuplicateCategory, at + ":category.code", name) && IsGiven(c.category)
        && exists g | 0 <= g < h :: files[g].content.Seed? && files[g].content.category == c.category)
    || (x == Issue(UnsupportedCategory, at + ":category.code", name) && name !in r.definitions)
    || (name in r.definitions
        && ((exists key | key in c.definitions ::
               x == Issue(UnknownAttributeDefinition, at + ":attribute_definitions" + "." + key, name)
               && !Declares(r.definitions[name], key))
            || exists i | 0 <= i < |r.definitions[name]| ::
                 x == Issue(AttributeDefinitionMissing, at + ":attribute_definitions" + "." + r.definitions[name][i].key, name)
                 && r.definitions[name][i].key !in c.definitions))
  }

  predicate FileFault(r: Registry, files: seq<SeedFile>, h: nat, x: Issue)
    requires h < |files|
  {
    match files[h].content
    case Unreadable(error) => x == Issue(SeedInvalidJson, files[h].path, error)
    case Seed(category, _, products) =>
      || HeadFault(r, files, h, x)
      || exists i | 0 <= i < |products| :: VisitFault(r, files, h, i, NameOf(category), x)
  }

  // ---------- one product's issues ----------

  lemma InWhen(bad: bool, code: IssueCode, path: string, detail: string, x: Issue)
    ensures x in When(bad, code, path, detail) <==> bad && x == Issue(code, path, detail)
  {
  }

  lemma FieldsAre(f: Field)
    ensures Printed(f) == NameOf(f) && (ValidStatus(f) <==> IsStatus(f)) && (HasCode(f) <==> IsCoded(f))
    ensures ValidCurrency(f) <==> IsCurrency(f)
    ensures Truthy(f) <==> IsGiven(f)
  {
    if f.Text? && |f.s| == 3 && IsCapital(f.s[0]) && IsCapital(f.s[1]) && IsCapital(f.s[2]) {
      forall i | 0 <= i < 3 ensures 'A' <= f.s[i] <= 'Z' {
      }
    }
  }

  lemma SkuIssuesAre(r: Registry, p: Product, at: string, x: Issue)
    ensures x in SkuIssues(r, p, at) <==> SkuFault(p, at, x) || DocumentFault(r, p, x)
  {
    var sku := p.sku;
    FieldsAre(sku.status);
    FieldsAre(sku.currency);
    DocumentIssuesAre(r, p, x);
    InFive(When(!ValidStatus(sku.status), InvalidSkuStatus, at, Printed(sku.status)),
           When(sku.money.None?, MoneyInvalid, at + ":money_amount", sku.amount),
           When(!ValidCurrency(sku.currency), CurrencyInvalid, at + ":currency", Printed(sku.currency)),
           When(!sku.inventory.Whole? || sku.inventory.n < 0, InventoryInvalid, at + ":inventory", PrintedStock(sku.inventory)),
           DocumentIssues(r, p.legacy), x);
  }

  lemma DocumentIssuesAre(r: Registry, p: Product, x: Issue)
    ensures x in DocumentIssues(r, p.legacy) <==> DocumentFault(r, p, x)
  {
    FieldsAre(p.legacy);
  }

  lemma {:induction false} UndeclaredAre(keys: seq<string>, declared: seq<Attribute>, name: string, at: string, x: Issue)
    ensures x in UndeclaredIssues(keys, KeysOf(declared), name, at)
        <==> exists key | key in keys :: x == Issue(UnknownAttribute, at + "." + key, name) && !Declares(declared, key)
    decreases |keys|
  {
    if keys != [] {
      var front, last := keys[..|keys| - 1], keys[|keys| - 1];
      UndeclaredAre(front, declared, name, at, x);
      MembersOfLast(keys);
      InWhen(last !in KeysOf(declared), UnknownAttribute, at + "." + last, name, x);
      assert last in KeysOf(declared) <==> Declares(declared, last);
    }
  }

  lemma {:induction false} DeclaredAre(
    r: Registry, declared: seq<Attribute>, values: map<string, Field>, name: string, at: string, x: Issue
  )
    ensures x in DeclaredIssues(r, name, declared, values, at)
        <==> exists i | 0 <= i < |declared| :: DeclaredFault(r, declared[i], values, name, at, x)
    decreases |declared|
  {
    if declared != [] {
      var n: nat := |declared| - 1;
      DeclaredAre(r, declared[..n], values, name, at, x);
      assert x in AttributeIssue(r, name, declared[n], values, at) <==> DeclaredFault(r, declared[n], values, name, at, x);
      assert forall i | 0 <= i < n :: declared[..n][i] == declared[i];
    }
  }

  lemma ValueIssuesAre(r: Registry, name: string, a: Attributes, at: string, x: Issue)
    requires Lists(r.listed)
    ensures x in ValueIssues(r, name, a, at) <==> AttributeFault(r, name, if a.Object? then a.values else map[], at, x)
  {
    if name in r.definitions {
      var values := if a.Object? then a.values else map[];
      var keys := r.listed(values.Keys);
      assert SetOf(keys) == values.Keys;
      UndeclaredAre(keys, r.definitions[name], name, at, x);
      DeclaredAre(r, r.definitions[name], values, name, at, x);
      assert forall key :: key in keys <==> key in values by {
        assert forall key :: key in SetOf(keys) <==> key in keys;
      }
    }
  }

  lemma ProductIssuesAre(r: Registry, name: string, p: Product, at: string, x: Issue)
    requires Lists(r.listed)
    ensures x in ProductIssues(r, name, p, at) <==> ProductFault(r, name, p, at, x)
  {
    FieldsAre(p.status);
    ValueIssuesAre(r, name, p.attributes, at + ":attributes", x);
  }

  lemma CodeIssuesAre(f: Field, kind: CodeKind, required: string, known: map<string, string>, seen: bool, at: string, x: Issue)
    requires required == MissingText(kind) && (HasCode(f) ==> (f.s in known <==> seen))
    ensures x in CodeIssues(f, kind, known, at) <==> CodeFault(f, kind, required, seen, at, x)
  {
    FieldsAre(f);
  }

  lemma {:induction false} CodeInProducts(products: seq<Product>, kind: CodeKind, code: string)
    requires HasCode(Field.Text(code))
    ensures code in Codes(products, kind) <==> SeenIn(products, |products|, kind, Field.Text(code))
    decreases |products|
  {
    if products != [] {
      var n: nat := |products| - 1;
      CodeInProducts(products[..n], kind, code);
      assert forall j | 0 <= j < n :: products[..n][j] == products[j];
    }
  }

  lemma {:induction false} CodeInFiles(files: seq<SeedFile>, kind: CodeKind, code: string)
    requires HasCode(Field.Text(code))
    ensures code in CodesOf(files, kind)
        <==> exists g | 0 <= g < |files| :: SeenIn(ProductsIn(files[g]), |ProductsIn(files[g])|, kind, Field.Text(code))
    decreases |files|
  {
    if files != [] {
      var n: nat := |files| - 1;
      CodeInFiles(files[..n], kind, code);
      CodeInProducts(ProductsIn(files[n]), kind, code);
      assert forall g | 0 <= g < n :: files[..n][g] == files[g];
    }
  }

  // ---------- the visit of one product ----------

  /** The state before product i of file h is visited. */
  function StateBefore(r: Registry, files: seq<SeedFile>, h: nat, i: nat): (st: State)
    requires h < |files| && files[h].content.Seed? && i <= |ProductsIn(files[h])|
    ensures NameOf(files[h].content.category) in st.categories
  {
    var c, path := files[h].content, files[h].path;
    VisitProducts(OpenFile(Visit(r, files[..h]), r, path, c.category, c.definitions), r, path, Printed(c.category), c.products[..i])
  }

  lemma CodeBefore(files: seq<SeedFile>, h: nat, i: nat, kind: CodeKind, f: Field)
    requires h < |files| && i <= |ProductsIn(files[h])| && HasCode(f)
    ensures f.s in CodesOf(files[..h], kind) || f.s in Codes(ProductsIn(files[h])[..i], kind) <==> SeenBefore(files, h, i, kind, f)
  {
    var products := ProductsIn(files[h]);
    CodeInFiles(files[..h], kind, f.s);
    CodeInProducts(products[..i], kind, f.s);
    assert forall j | 0 <= j < i :: products[..i][j] == products[j];
    assert forall g | 0 <= g < h :: files[..h][g] == files[g];
  }

  lemma KnownBefore(r: Registry, files: seq<SeedFile>, h: nat, i: nat, kind: CodeKind, f: Field)
    requires h < |files| && files[h].content.Seed? && i <= |ProductsIn(files[h])| && HasCode(f)
    ensures f.s in Known(StateBefore(r, files, h, i), kind) <==> SeenBefore(files, h, i, kind, f)
  {
    var c, path := files[h].content, files[h].path;
    KnownAreCodes(r, files[..h], kind);
    KnownAfterProducts(OpenFile(Visit(r, files[..h]), r, path, c.category, c.definitions), r, path, Printed(c.category), c.products[..i], kind);
    CodeBefore(files, h, i, kind, f);
  }

  lemma InFive<T>(a: seq<T>, b: seq<T>, c: seq<T>, d: seq<T>, e: seq<T>, x: T)
    ensures x in a + b + c + d + e <==> x in a || x in b || x in c || x in d || x in e
  {
  }

  lemma CodeIssuesBefore(r: Registry, files: seq<SeedFile>, h: nat, i: nat, kind: CodeKind, f: Field, required: string, at: string, x: Issue)
    requires h < |files| && files[h].content.Seed? && i <= |ProductsIn(files[h])| && required == MissingText(kind)
    ensures x in CodeIssues(f, kind, Known(StateBefore(r, files, h, i), kind), at)
        <==> CodeFault(f, kind, required, SeenBefore(files, h, i, kind, f), at, x)
  {
    if HasCode(f) {
      KnownBefore(r, files, h, i, kind, f);
    }
    var seen := SeenBefore(files, h, i, kind, f);
    CodeIssuesAre(f, kind, required, Known(StateBefore(r, files, h, i), kind), seen, at, x);
  }

  lemma VisitIssuesAre(r: Registry, files: seq<SeedFile>, h: nat, i: nat, name: string, x: Issue)
    requires Lists(r.listed) && h < |files| && files[h].content.Seed? && i < |ProductsIn(files[h])|
    ensures x in IssuesOfVisit(StateBefore(r, files, h, i), r, name, ProductsIn(files[h])[i], ProductPath(files[h].path, i))
        <==> VisitFault(r, files, h, i, name, x)
  {
    var p, at, st := ProductsIn(files[h])[i], ProductPath(files[h].path, i), StateBefore(r, files, h, i);
    CodeIssuesBefore(r, files, h, i, ProductCode, p.code, "product_code is required", at, x);
    CodeIssuesBefore(r, files, h, i, LegacyId, p.legacy, "legacy_product_id is required", at, x);
    CodeIssuesBefore(r, files, h, i, SkuCode, p.sku.code, "sku_code is required", at + ":sku", x);
    ProductIssuesAre(r, name, p, at, x);
    SkuIssuesAre(r, p, at + ":sku", x);
    InFive(CodeIssues(p.code, ProductCode, st.productCodes, at), CodeIssues(p.legacy, LegacyId, st.legacyIds, at),
           ProductIssues(r, name, p, at), CodeIssues(p.sku.code, SkuCode, st.skuCodes, at + ":sku"),
           SkuIssues(r, p, at + ":sku"), x);
  }

  predicate VisitFinds(st: State, r: Registry, file: string, name: string, products: seq<Product>, i: nat, x: Issue)
    requires name in st.categories && i < |products|
  {
    x in IssuesOfVisit(VisitProducts(st, r, file, name, products[..i]), r, name, products[i], ProductPath(file, i))
  }

  lemma OneMoreVisit(st: State, r: Registry, file: string, name: string, products: seq<Product>, m: nat, x: Issue)
    requires name in st.categories && m < |products|
    ensures x in VisitProducts(st, r, file, name, products[..m + 1]).issues
        <==> x in VisitProducts(st, r, file, name, products[..m]).issues || VisitFinds(st, r, file, name, products, m, x)
  {
    TakeOneMore(products, m);
  }

  ghost function FoundAfter(st: State, r: Registry, file: string, name: string, products: seq<Product>, x: Issue): nat -> bool
    requires name in st.categories
  {
    (k: nat) => k <= |products| && x in VisitProducts(st, r, file, name, products[..k]).issues
  }

  ghost function FoundAt(st: State, r: Registry, file: string, name: string, products: seq<Product>, x: Issue): nat -> bool
    requires name in st.categories
  {
    (k: nat) => k < |products| && VisitFinds(st, r, file, name, products, k, x)
  }

  /** An issue of the products is one of a single visit. */
  lemma VisitedIssues(st: State, r: Registry, file: string, name: string, products: seq<Product>, x: Issue)
    requires name in st.categories
    ensures x in VisitProducts(st, r, file, name, products).issues
        <==> x in st.issues || exists i | 0 <= i < |products| :: VisitFinds(st, r, file, name, products, i, x)
  {
    var all, one := FoundAfter(st, r, file, name, products, x), FoundAt(st, r, file, name, products, x);
    forall k: nat | k < |products| ensures all(k + 1) <==> all(k) || one(k) {
      OneMoreVisit(st, r, file, name, products, k, x);
    }
    FromOneOn(all, one, |products|);
    TakeAll(products);
    assert products[..0] == [];
    assert forall i: nat | i < |products| :: one(i) <==> VisitFinds(st, r, file, name, products, i, x);
  }

  // ---------- one file, and all of them ----------

  lemma {:induction false} KeysAre(keys: seq<string>, code: IssueCode, at: string, name: string, x: Issue)
    ensures x in KeyIssues(keys, code, at, name) <==> exists key | key in keys :: x == Issue(code, at + "." + key, name)
    decreases |keys|
  {
    if keys != [] {
      KeysAre(keys[..|keys| - 1], code, at, name, x);
      MembersOfLast(keys);
    }
  }

  lemma UndefinedKeysAre(r: Registry, name: string, definitions: seq<string>, at: string, x: Issue)
    requires Lists(r.listed) && name in r.definitions
    ensures x in KeyIssues(r.listed(SetOf(definitions) - KeysOf(r.definitions[name])), UnknownAttributeDefinition, at, name)
        <==> exists key | key in definitions ::
               x == Issue(UnknownAttributeDefinition, at + "." + key, name) && !Declares(r.definitions[name], key)
  {
    var unknown := SetOf(definitions) - KeysOf(r.definitions[name]);
    KeysAre(r.listed(unknown), UnknownAttributeDefinition, at, name, x);
    assert forall key :: key in r.listed(unknown) <==> key in SetOf(r.listed(unknown));
    forall key ensures key in unknown <==> key in definitions && !Declares(r.definitions[name], key) {
      assert key in KeysOf(r.definitions[name]) <==> Declares(r.definitions[name], key);
    }
  }

  lemma LackingKeysAre(r: Registry, name: string, definitions: seq<string>, at: string, x: Issue)
    requires Lists(r.listed) && name in r.definitions
    ensures x in KeyIssues(r.listed(KeysOf(r.definitions[name]) - SetOf(definitions)), AttributeDefinitionMissing, at, name)
        <==> exists i | 0 <= i < |r.definitions[name]| ::
               x == Issue(AttributeDefinitionMissing, at + "." + r.definitions[name][i].key, name)
               && r.definitions[name][i].key !in definitions
  {
    var lacking := KeysOf(r.definitions[name]) - SetOf(definitions);
    KeysAre(r.listed(lacking), AttributeDefinitionMissing, at, name, x);
    assert forall key :: key in r.listed(lacking) <==> key in SetOf(r.listed(lacking));
    if i :| 0 <= i < |r.definitions[name]| && x == Issue(AttributeDefinitionMissing, at + "." + r.definitions[name][i].key, name)
            && r.definitions[name][i].key !in definitions {
      assert r.definitions[name][i].key in lacking;
    }
  }

  lemma SeenCategory(r: Registry, files: seq<SeedFile>, h: nat, f: Field)
    requires h <= |files|
    ensures f in Visit(r, files[..h]).categoryCodes
        <==> IsGiven(f) && exists g | 0 <= g < h :: files[g].content.Seed? && files[g].content.category == f
  {
    SeenCategories(r, files[..h]);
    CategoryInFiles(files, h, f);
  }

  lemma {:induction false} CategoryInFiles(files: seq<SeedFile>, h: nat, f: Field)
    requires h <= |files|
    ensures f in CategoriesOf(files[..h])
        <==> IsGiven(f) && exists g | 0 <= g < h :: files[g].content.Seed? && files[g].content.category == f
    decreases h
  {
    FieldsAre(f);
    if h > 0 {
      var m: nat := h - 1;
      CategoryInFiles(files, m, f);
      TakeOneMore(files, m);
    }
  }

  lemma DefinitionIssuesAre(r: Registry, path: string, name: string, definitions: seq<string>, x: Issue)
    requires Lists(r.listed)
    ensures x in DefinitionIssues(r, path, name, definitions)
        <==> name in r.definitions
             && ((exists key | key in definitions ::
                    x == Issue(UnknownAttributeDefinition, path + ":attribute_definitions" + "." + key, name)
                    && !Declares(r.definitions[name], key))
                 || exists i | 0 <= i < |r.definitions[name]| ::
                      x == Issue(AttributeDefinitionMissing, path + ":attribute_definitions" + "." + r.definitions[name][i].key, name)
                      && r.definitions[name][i].key !in definitions)
  {
    if name in r.definitions {
      UndefinedKeysAre(r, name, definitions, path + ":attribute_definitions", x);
      LackingKeysAre(r, name, definitions, path + ":attribute_definitions", x);
    }
  }

  lemma HeadIssuesAre(r: Registry, files: seq<SeedFile>, h: nat, x: Issue)
    requires Lists(r.listed) && h < |files| && files[h].content.Seed?
    ensures var st, c := Visit(r, files[..h]), files[h].content;
            x in OpenFile(st, r, files[h].path, c.category, c.definitions).issues <==> x in st.issues || HeadFault(r, files, h, x)
  {
    var c := files[h].content;
    FieldsAre(c.category);
    SeenCategory(r, files, h, c.category);
    DefinitionIssuesAre(r, files[h].path, NameOf(c.category), c.definitions, x);
  }

  lemma FileIssuesAre(r: Registry, files: seq<SeedFile>, h: nat, x: Issue)
    requires Lists(r.listed) && h < |files|
    ensures x in VisitFile(Visit(r, files[..h]), r, files[h]).issues
        <==> x in Visit(r, files[..h]).issues || FileFault(r, files, h, x)
  {
    if files[h].content.Seed? {
      var c, path, name := files[h].content, files[h].path, NameOf(files[h].content.category);
      var begun := OpenFile(Visit(r, files[..h]), r, path, c.category, c.definitions);
      HeadIssuesAre(r, files, h, x);
      FieldsAre(c.category);
      VisitedIssues(begun, r, path, name, c.products, x);
      forall i | 0 <= i < |c.products|
        ensures VisitFinds(begun, r, path, name, c.products, i, x) <==> VisitFault(r, files, h, i, name, x)
      {
        VisitIssuesAre(r, files, h, i, name, x);
      }
    }
  }

  lemma {:induction false} IssuesUpTo(r: Registry, files: seq<SeedFile>, k: nat, x: Issue)
    requires Lists(r.listed) && k <= |files|
    ensures x in Visit(r, files[..k]).issues <==> exists h | 0 <= h < k :: FileFault(r, files, h, x)
    decreases k
  {
    if k > 0 {
      var m: nat := k - 1;
      IssuesUpTo(r, files, m, x);
      TakeOneMore(files, m);
      FileIssuesAre(r, files, m, x);
    }
  }

  /** An issue is reported, with its path and its text, exactly when one of the files has that fault. */
  lemma IssuesAreFaults(r: Registry, files: seq<SeedFile>, x: Issue)
    requires Lists(r.listed)
    ensures x in ReportOf(Visit(r, files)).issues <==> exists h | 0 <= h < |files| :: FileFault(r, files, h, x)
  {
    IssuesUpTo(r, files, |files|, x);
    TakeAll(files);
  }

  // ---------- the counts ----------

  /** The report counts the categories, product codes and SKU codes there are, and is valid without an issue. */
  lemma CountsAre(r: Registry, files: seq<SeedFile>, products: set<string>, skus: set<string>, categories: set<string>)
    requires forall code :: code in products <==> code in CodesOf(files, ProductCode)
    requires forall code :: code in skus <==> code in CodesOf(files, SkuCode)
    requires forall name :: name in categories <==>
               exists g | 0 <= g < |files| :: files[g].content.Seed? && NameOf(files[g].content.category) == name
    ensures var report := ReportOf(Visit(r, files));
            && report.products == |products| && report.skus == |skus| && report.categories == |categories|
            && report.buckets.Keys == categories && (report.valid <==> report.issues == [])
  {
    var st := Visit(r, files);
    KnownAreCodes(r, files, ProductCode);
    KnownAreCodes(r, files, SkuCode);
    assert Known(st, ProductCode).Keys == products && Known(st, SkuCode).Keys == skus;
    KeysCount(st.productCodes);
    KeysCount(st.skuCodes);
    TakeAll(files);
    forall name ensures name in st.categories <==> name in categories {
      CategoriesUpTo(r, files, |files|, name);
    }
    assert st.categories.Keys == categories;
    assert |st.categories| == |st.categories.Keys|;
  }

  lemma {:induction false} CategoriesUpTo(r: Registry, files: seq<SeedFile>, k: nat, name: string)
    requires k <= |files|
    ensures name in Visit(r, files[..k]).categories
        <==> exists g | 0 <= g < k :: files[g].content.Seed? && NameOf(files[g].content.category) == name
    decreases k
  {
    if k > 0 {
      var m: nat := k - 1;
      CategoriesUpTo(r, files, m, name);
      TakeOneMore(files, m);
      CategoriesNext(Visit(r, files[..m]), r, files[m], name);
    }
  }

  lemma CategoriesNext(st: State, r: Registry, file: SeedFile, name: string)
    ensures name in VisitFile(st, r, file).categories
        <==> name in st.categories || (file.content.Seed? && NameOf(file.content.category) == name)
  {
    if file.content.Seed? {
      var c := file.content;
      FieldsAre(c.category);
      VisitsKeepCategories(OpenFile(st, r, file.path, c.category, c.definitions), r, file.path, Printed(c.category), c.products);
    }
  }

  lemma {:induction false} VisitsKeepCategories(st: State, r: Registry, file: string, name: string, products: seq<Product>)
    requires name in st.categories
    ensures VisitProducts(st, r, file, name, products).categories.Keys == st.categories.Keys
    decreases |products|
  {
    if products != [] {
      VisitsKeepCategories(st, r, file, name, products[..|products| - 1]);
    }
  }
}
