/** A closed form for the number of issues of every code that a validation run collects. */
module ValidationLaws {
  import opened Sequences
  import opened Text
  import opened CatalogValidation

  // ---------- counting issues ----------

  function Count(issues: seq<Issue>, code: IssueCode): nat {
    if issues == [] then 0 else Count(issues[..|issues| - 1], code) + One(issues[|issues| - 1].code == code)
  }

  lemma {:induction false} CountConcat(a: seq<Issue>, b: seq<Issue>, code: IssueCode)
    ensures Count(a + b, code) == Count(a, code) + Count(b, code)
  {
    if b == [] {
      ConcatNothing(a);
    } else {
      ConcatLast(a, b);
      CountConcat(a, b[..|b| - 1], code);
    }
  }

  lemma {:induction false} CountThree(a: seq<Issue>, b: seq<Issue>, c: seq<Issue>, code: IssueCode)
    ensures Count(a + b + c, code) == Count(a, code) + Count(b, code) + Count(c, code)
  {
    CountConcat(a + b, c, code);
    CountConcat(a, b, code);
  }

  lemma {:induction false} CountWhen(bad: bool, code: IssueCode, path: string, detail: string, c: IssueCode)
    ensures Count(When(bad, code, path, detail), c) == if bad && code == c then 1 else 0
  {
    assert bad ==> [Issue(code, path, detail)][..0] == [];
  }

  ghost predicate Uncounted(issues: seq<Issue>) {
    forall c :: Count(issues, c) == 0
  }

  lemma {:induction false} NoneCounted(issues: seq<Issue>)
    ensures Uncounted(issues) <==> issues == []
  {
    if issues != [] {
      assert Count(issues, issues[|issues| - 1].code) > 0;
    }
  }

  // ---------- codes ----------

  function FieldOf(p: Product, kind: CodeKind): Field {
    match kind
    case ProductCode => p.code
    case LegacyId => p.legacy
    case SkuCode => p.sku.code
  }

  /** The codes that are there, in the order of the products. */
  function Codes(products: seq<Product>, kind: CodeKind): seq<string> {
    if products == [] then []
    else
      var f := FieldOf(products[|products| - 1], kind);
      Codes(products[..|products| - 1], kind) + if HasCode(f) then [f.s] else []
  }

  function ProductsIn(file: SeedFile): seq<Product> {
    if file.content.Seed? then file.content.products else []
  }

  function CodesOf(files: seq<SeedFile>, kind: CodeKind): seq<string> {
    if files == [] then []
    else CodesOf(files[..|files| - 1], kind) + Codes(ProductsIn(files[|files| - 1]), kind)
  }

  function CategoryIn(file: SeedFile): seq<Field> {
    if file.content.Seed? && Truthy(file.content.category) then [file.content.category] else []
  }

  function CategoriesOf(files: seq<SeedFile>): seq<Field> {
    if files == [] then [] else CategoriesOf(files[..|files| - 1]) + CategoryIn(files[|files| - 1])
  }

  function Known(st: State, kind: CodeKind): map<string, string> {
    match kind
    case ProductCode => st.productCodes
    case LegacyId => st.legacyIds
    case SkuCode => st.skuCodes
  }

  // ---------- what a file is to blame for on its own ----------

  function OwnProductIssues(r: Registry, category: string, p: Product, path: string): seq<Issue> {
    MissingCode(p.code, ProductCode, path) + MissingCode(p.legacy, LegacyId, path)
    + ProductIssues(r, category, p, path) + MissingCode(p.sku.code, SkuCode, path + ":sku") + SkuIssues(r, p, path + ":sku")
  }

  function OwnProductsIssues(r: Registry, file: string, category: string, products: seq<Product>): seq<Issue> {
    if products == [] then []
    else
      var n := |products| - 1;
      OwnProductsIssues(r, file, category, products[..n])
      + OwnProductIssues(r, category, products[n], ProductPath(file, n))
  }

  function UnsupportedIssues(r: Registry, path: string, name: string): seq<Issue> {
    When(name !in r.definitions, UnsupportedCategory, path + ":category.code", name)
  }

  /** The issues of a file that do not depend on what was seen before it. */
  function OwnIssues(r: Registry, file: SeedFile): seq<Issue> {
    match file.content
    case Unreadable(error) => [Issue(SeedInvalidJson, file.path, error)]
    case Seed(category, definitions, products) =>
      var name := Printed(category);
      UnsupportedIssues(r, file.path, name) + DefinitionIssues(r, file.path, name, definitions)
      + OwnProductsIssues(r, file.path, name, products)
  }

  function Complaints(r: Registry, files: seq<SeedFile>): seq<Issue> {
    if files == [] then [] else Complaints(r, files[..|files| - 1]) + OwnIssues(r, files[|files| - 1])
  }

  // ---------- the balance every step keeps ----------

  /** Issues of a code together with what was seen for the first time. */
  function Balance(st: State, code: IssueCode): nat {
    Count(st.issues, code)
    + match code
      case DuplicateCode(kind) => |Known(st, kind)|
      case DuplicateCategory => |st.categoryCodes|
      case _ => 0
  }

  function ProductWeight(p: Product, code: IssueCode): nat {
    if code.DuplicateCode? then One(HasCode(FieldOf(p, code.kind))) else 0
  }

  function RepeatsOf(f: Field, kind: CodeKind, known: map<string, string>, code: IssueCode): nat {
    One(code == DuplicateCode(kind) && HasCode(f) && f.s in known)
  }

  lemma {:induction false} CountCodeIssues(f: Field, kind: CodeKind, known: map<string, string>, path: string, c: IssueCode)
    ensures Count(CodeIssues(f, kind, known, path), c)
         == Count(MissingCode(f, kind, path), c) + RepeatsOf(f, kind, known, c)
  {
    CountConcat(MissingCode(f, kind, path), RepeatedCode(f, kind, known, path), c);
    CountWhen(HasCode(f) && f.s in known, DuplicateCode(kind), path, Printed(f), c);
  }

  lemma {:induction false} CountFive(a: seq<Issue>, b: seq<Issue>, c: seq<Issue>, d: seq<Issue>, e: seq<Issue>, code: IssueCode)
    ensures Count(a + b + c + d + e, code)
         == Count(a, code) + Count(b, code) + Count(c, code) + Count(d, code) + Count(e, code)
  {
    CountThree(a, b, c, code);
    CountThree(a + b + c, d, e, code);
  }

  lemma {:induction false} FivesDiffer(
    a: seq<Issue>, b: seq<Issue>, c: seq<Issue>, d: seq<Issue>, e: seq<Issue>,
    a': seq<Issue>, b': seq<Issue>, d': seq<Issue>, x: nat, y: nat, z: nat, code: IssueCode
  )
    requires Count(a, code) == Count(a', code) + x && Count(b, code) == Count(b', code) + y
    requires Count(d, code) == Count(d', code) + z
    ensures Count(a + b + c + d + e, code) == Count(a' + b' + c + d' + e, code) + x + y + z
  {
    CountFive(a, b, c, d, e, code);
    CountFive(a', b', c, d', e, code);
  }

  lemma {:induction false} CountVisit(st: State, r: Registry, category: string, p: Product, path: string, c: IssueCode)
    ensures Count(IssuesOfVisit(st, r, category, p, path), c)
         == Count(OwnProductIssues(r, category, p, path), c) + RepeatsOf(p.code, ProductCode, st.productCodes, c)
            + RepeatsOf(p.legacy, LegacyId, st.legacyIds, c) + RepeatsOf(p.sku.code, SkuCode, st.skuCodes, c)
  {
    CountCodeIssues(p.code, ProductCode, st.productCodes, path, c);
    CountCodeIssues(p.legacy, LegacyId, st.legacyIds, path, c);
    CountCodeIssues(p.sku.code, SkuCode, st.skuCodes, path + ":sku", c);
    FivesDiffer(CodeIssues(p.code, ProductCode, st.productCodes, path), CodeIssues(p.legacy, LegacyId, st.legacyIds, path),
                ProductIssues(r, category, p, path), CodeIssues(p.sku.code, SkuCode, st.skuCodes, path + ":sku"),
                SkuIssues(r, p, path + ":sku"),
                MissingCode(p.code, ProductCode, path), MissingCode(p.legacy, LegacyId, path),
                MissingCode(p.sku.code, SkuCode, path + ":sku"),
                RepeatsOf(p.code, ProductCode, st.productCodes, c), RepeatsOf(p.legacy, LegacyId, st.legacyIds, c),
                RepeatsOf(p.sku.code, SkuCode, st.skuCodes, c), c);
  }

  lemma {:induction false} RememberGrows(f: Field, known: map<string, string>, path: string)
    ensures |Remember(f, known, path)| == |known| + if HasCode(f) && f.s !in known then 1 else 0
    ensures Remember(f, known, path).Keys == known.Keys + if HasCode(f) then {f.s} else {}
  {
    if HasCode(f) && f.s !in known {
      assert Remember(f, known, path).Keys == known.Keys + {f.s};
    }
  }

  lemma KnownAfterVisit(st: State, r: Registry, file: string, category: string, index: nat, p: Product, kind: CodeKind)
    requires category in st.categories
    ensures Known(VisitProduct(st, r, file, category, index, p), kind) == Remember(FieldOf(p, kind), Known(st, kind), file)
  {
  }

  function RepeatsIn(st: State, p: Product, c: IssueCode): nat {
    RepeatsOf(p.code, ProductCode, st.productCodes, c) + RepeatsOf(p.legacy, LegacyId, st.legacyIds, c)
    + RepeatsOf(p.sku.code, SkuCode, st.skuCodes, c)
  }

  lemma {:induction false} RepeatsOfKind(st: State, p: Product, kind: CodeKind)
    ensures RepeatsIn(st, p, DuplicateCode(kind)) == if HasCode(FieldOf(p, kind)) && FieldOf(p, kind).s in Known(st, kind) then 1 else 0
  {
  }

  /** What a visit adds to the codes seen and the repeats found. */
  lemma {:induction false} VisitRemembers(st: State, r: Registry, file: string, category: string, index: nat, p: Product, kind: CodeKind)
    requires category in st.categories
    ensures |Known(VisitProduct(st, r, file, category, index, p), kind)| + RepeatsIn(st, p, DuplicateCode(kind))
         == |Known(st, kind)| + ProductWeight(p, DuplicateCode(kind))
  {
    KnownAfterVisit(st, r, file, category, index, p, kind);
    RepeatsOfKind(st, p, kind);
    RememberGrows(FieldOf(p, kind), Known(st, kind), file);
  }

  /** The balance after issues were found, r of them for repeats, and w codes met. */
  lemma {:induction false} BalanceAfter(st: State, after: State, found: seq<Issue>, c: IssueCode, own: nat, r: nat, w: nat)
    requires after.issues == st.issues + found && after.categoryCodes == st.categoryCodes && Count(found, c) == own + r
    requires if c.DuplicateCode? then |Known(after, c.kind)| + r == |Known(st, c.kind)| + w else r == w == 0
    ensures Balance(after, c) == Balance(st, c) + own + w
  {
    CountConcat(st.issues, found, c);
  }

  lemma {:induction false} VisitBalances(st: State, r: Registry, file: string, category: string, index: nat, p: Product, c: IssueCode)
    requires category in st.categories
    ensures Balance(VisitProduct(st, r, file, category, index, p), c)
         == Balance(st, c) + Count(OwnProductIssues(r, category, p, ProductPath(file, index)), c) + ProductWeight(p, c)
  {
    var path := ProductPath(file, index);
    CountVisit(st, r, category, p, path, c);
    if c.DuplicateCode? {
      VisitRemembers(st, r, file, category, index, p, c.kind);
    }
    BalanceAfter(st, VisitProduct(st, r, file, category, index, p), IssuesOfVisit(st, r, category, p, path), c,
                 Count(OwnProductIssues(r, category, p, path), c), RepeatsIn(st, p, c), ProductWeight(p, c));
  }

  function ProductsWeight(products: seq<Product>, code: IssueCode): nat {
    if code.DuplicateCode? then |Codes(products, code.kind)| else 0
  }

  lemma {:induction false} OneMoreOwn(r: Registry, file: string, category: string, products: seq<Product>, c: IssueCode)
    requires products != []
    ensures var n: nat := |products| - 1;
            Count(OwnProductsIssues(r, file, category, products), c)
            == Count(OwnProductsIssues(r, file, category, products[..n]), c)
               + Count(OwnProductIssues(r, category, products[n], ProductPath(file, n)), c)
  {
    var n: nat := |products| - 1;
    CountConcat(OwnProductsIssues(r, file, category, products[..n]),
                OwnProductIssues(r, category, products[n], ProductPath(file, n)), c);
  }

  lemma OneMoreWeight(products: seq<Product>, c: IssueCode)
    requires products != []
    ensures var n: nat := |products| - 1;
            ProductsWeight(products, c) == ProductsWeight(products[..n], c) + ProductWeight(products[n], c)
  {
  }

  lemma {:induction false} VisitsBalance(st: State, r: Registry, file: string, category: string, products: seq<Product>, c: IssueCode)
    requires category in st.categories
    ensures Balance(VisitProducts(st, r, file, category, products), c)
         == Balance(st, c) + Count(OwnProductsIssues(r, file, category, products), c) + ProductsWeight(products, c)
    decreases |products|
  {
    if products != [] {
      var n: nat := |products| - 1;
      VisitsBalance(st, r, file, category, products[..n], c);
      VisitBalances(VisitProducts(st, r, file, category, products[..n]), r, file, category, n, products[n], c);
      OneMoreOwn(r, file, category, products, c);
      OneMoreWeight(products, c);
    }
  }

  /** Only category codes that are there are remembered. */
  predicate Sound(st: State) {
    forall f | f in st.categoryCodes :: Truthy(f)
  }

  function CategoryWeight(category: Field, code: IssueCode): nat {
    One(code == DuplicateCategory && Truthy(category))
  }

  lemma {:induction false} CategoryRemembered(seen: set<Field>, category: Field)
    requires forall f | f in seen :: Truthy(f)
    ensures |seen + if Truthy(category) then {category} else {}| == |seen| + if Truthy(category) && category !in seen then 1 else 0
  {
    assert category in seen ==> seen + {category} == seen;
  }

  lemma {:induction false} BalanceOpened(st: State, after: State, a: seq<Issue>, b: seq<Issue>, d: seq<Issue>, c: IssueCode, r: nat, w: nat)
    requires after.issues == st.issues + a + b + d && Count(a, c) == r
    requires after.productCodes == st.productCodes && after.legacyIds == st.legacyIds && after.skuCodes == st.skuCodes
    requires if c.DuplicateCategory? then |after.categoryCodes| + r == |st.categoryCodes| + w else r == w == 0
    ensures Balance(after, c) == Balance(st, c) + w + Count(b, c) + Count(d, c)
  {
    CountThree(st.issues + a, b, d, c);
    CountConcat(st.issues, a, c);
  }

  lemma {:induction false} OpenBalances(st: State, r: Registry, path: string, category: Field, definitions: seq<string>, c: IssueCode)
    requires Sound(st)
    ensures var name, after := Printed(category), OpenFile(st, r, path, category, definitions);
            && Sound(after)
            && Balance(after, c) == Balance(st, c) + CategoryWeight(category, c)
               + Count(UnsupportedIssues(r, path, name), c) + Count(DefinitionIssues(r, path, name, definitions), c)
  {
    var name := Printed(category);
    var repeated := category in st.categoryCodes;
    CategoryRemembered(st.categoryCodes, category);
    CountWhen(repeated, DuplicateCategory, path + ":category.code", name, c);
    BalanceOpened(st, OpenFile(st, r, path, category, definitions),
                  When(repeated, DuplicateCategory, path + ":category.code", name),
                  UnsupportedIssues(r, path, name), DefinitionIssues(r, path, name, definitions), c,
                  if repeated && DuplicateCategory == c then 1 else 0, CategoryWeight(category, c));
  }

  function FileWeight(file: SeedFile, code: IssueCode): nat {
    match code
    case DuplicateCode(kind) => |Codes(ProductsIn(file), kind)|
    case DuplicateCategory => |CategoryIn(file)|
    case _ => 0
  }

  lemma {:induction false} VisitsStaySound(st: State, r: Registry, file: string, category: string, products: seq<Product>)
    requires category in st.categories
    ensures VisitProducts(st, r, file, category, products).categoryCodes == st.categoryCodes
  {
    if products != [] {
      VisitsStaySound(st, r, file, category, products[..|products| - 1]);
    }
  }

  lemma {:induction false} SeedBalances(st: State, r: Registry, file: SeedFile, c: IssueCode)
    requires Sound(st) && file.content.Seed?
    ensures Sound(VisitFile(st, r, file))
    ensures Balance(VisitFile(st, r, file), c) == Balance(st, c) + Count(OwnIssues(r, file), c) + FileWeight(file, c)
  {
    var Seed(category, definitions, products) := file.content;
    var path, name := file.path, Printed(category);
    var begun := OpenFile(st, r, path, category, definitions);
    OpenBalances(st, r, path, category, definitions, c);
    VisitsBalance(begun, r, path, name, products, c);
    VisitsStaySound(begun, r, path, name, products);
    CountThree(UnsupportedIssues(r, path, name), DefinitionIssues(r, path, name, definitions), OwnProductsIssues(r, path, name, products), c);
  }

  lemma {:induction false} UnreadableBalances(st: State, r: Registry, file: SeedFile, c: IssueCode)
    requires Sound(st) && file.content.Unreadable?
    ensures Sound(VisitFile(st, r, file))
    ensures Balance(VisitFile(st, r, file), c) == Balance(st, c) + Count(OwnIssues(r, file), c) + FileWeight(file, c)
  {
    CountConcat(st.issues, [Issue(SeedInvalidJson, file.path, file.content.error)], c);
  }

  lemma {:induction false} FileBalances(st: State, r: Registry, file: SeedFile, c: IssueCode)
    requires Sound(st)
    ensures Sound(VisitFile(st, r, file))
    ensures Balance(VisitFile(st, r, file), c) == Balance(st, c) + Count(OwnIssues(r, file), c) + FileWeight(file, c)
  {
    if file.content.Seed? {
      SeedBalances(st, r, file, c);
    } else {
      UnreadableBalances(st, r, file, c);
    }
  }

  function FilesWeight(files: seq<SeedFile>, code: IssueCode): nat {
    match code
    case DuplicateCode(kind) => |CodesOf(files, kind)|
    case DuplicateCategory => |CategoriesOf(files)|
    case _ => 0
  }

  lemma {:induction false} RunBalances(r: Registry, files: seq<SeedFile>, c: IssueCode)
    ensures Sound(Visit(r, files))
    ensures Balance(Visit(r, files), c) == Count(Complaints(r, files), c) + FilesWeight(files, c)
  {
    if files != [] {
      var n := |files| - 1;
      RunBalances(r, files[..n], c);
      FileBalances(Visit(r, files[..n]), r, files[n], c);
      CountConcat(Complaints(r, files[..n]), OwnIssues(r, files[n]), c);
    }
  }

  // ---------- what was seen ----------

  lemma {:induction false} RememberedCodes(known: map<string, string>, keys: set<string>, codes: seq<string>, f: Field, file: string)
    requires known.Keys == keys + SetOf(codes)
    ensures Remember(f, known, file).Keys == keys + SetOf(codes + if HasCode(f) then [f.s] else [])
  {
    RememberGrows(f, known, file);
  }

  lemma {:induction false} KnownAfterProducts(st: State, r: Registry, file: string, category: string, products: seq<Product>, kind: CodeKind)
    requires category in st.categories
    ensures Known(VisitProducts(st, r, file, category, products), kind).Keys == Known(st, kind).Keys + SetOf(Codes(products, kind))
  {
    if products != [] {
      var n := |products| - 1;
      KnownAfterProducts(st, r, file, category, products[..n], kind);
      var before := VisitProducts(st, r, file, category, products[..n]);
      KnownAfterVisit(before, r, file, category, n, products[n], kind);
      RememberedCodes(Known(before, kind), Known(st, kind).Keys, Codes(products[..n], kind), FieldOf(products[n], kind), file);
    }
  }

  lemma {:induction false} KnownAreCodes(r: Registry, files: seq<SeedFile>, kind: CodeKind)
    ensures Known(Visit(r, files), kind).Keys == SetOf(CodesOf(files, kind))
  {
    if files != [] {
      var n := |files| - 1;
      var st, file := Visit(r, files[..n]), files[n];
      KnownAreCodes(r, files[..n], kind);
      if file.content.Seed? {
        var c := file.content;
        KnownAfterProducts(OpenFile(st, r, file.path, c.category, c.definitions), r, file.path, Printed(c.category), c.products, kind);
      }
    }
  }

  lemma {:induction false} SeenCategories(r: Registry, files: seq<SeedFile>)
    ensures Visit(r, files).categoryCodes == SetOf(CategoriesOf(files))
  {
    if files != [] {
      var n := |files| - 1;
      var st, file := Visit(r, files[..n]), files[n];
      SeenCategories(r, files[..n]);
      if file.content.Seed? {
        var c := file.content;
        VisitsStaySound(OpenFile(st, r, file.path, c.category, c.definitions), r, file.path, Printed(c.category), c.products);
      }
    }
  }

  lemma KeysCount(m: map<string, string>)
    ensures |m| == |m.Keys|
  {
  }

  /** The number of issues of every code: repeats are codes less distinct codes, and anything else is what
      the files are to blame for one by one. */
  lemma {:induction false} IssuesInClosedForm(r: Registry, files: seq<SeedFile>, code: IssueCode)
    ensures Count(Visit(r, files).issues, code) == Count(Complaints(r, files), code)
            + match code
              case DuplicateCode(kind) => |CodesOf(files, kind)| - |SetOf(CodesOf(files, kind))|
              case DuplicateCategory => |CategoriesOf(files)| - |SetOf(CategoriesOf(files))|
              case _ => 0
  {
    RunBalances(r, files, code);
    SeenCategories(r, files);
    if code.DuplicateCode? {
      KnownAreCodes(r, files, code.kind);
      KeysCount(Known(Visit(r, files), code.kind));
    }
  }
}
