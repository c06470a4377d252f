/** `chat.service.ts`: the question-answering assistant. A question goes to
    the remote model when an API key is configured; otherwise, or when the
    remote path yields nothing, local rules classify the question, pick
    keywords out of it and phrase an answer around the products found. */
module Chat {
  import opened Wrappers
  import opened Strings
  import opened Tables

  /** The `type` field of `extractIntent`'s result. */
  datatype Intent = Health | Cooking | Price | Taste | Recommend | Search

  /** The cue words `extractIntent` looks for, one list per intent. */
  const HealthCues: seq<string> := ["感冒", "生病", "健康", "营养", "补", "增强", "免疫力", "恢复", "虚弱", "调理"]
  const CookingCues: seq<string> := ["做", "煮", "炖", "汤", "清蒸", "红烧", "煎", "烤", "烹饪", "做法", "怎么", "如何做"]
  const PriceCues: seq<string> := ["便宜", "贵", "价格", "多少钱", "性价比", "实惠", "经济", "划算"]
  const TasteCues: seq<string> := ["好吃", "美味", "香", "鲜", "嫩", "口感", "味道", "推荐好吃的", "什么好吃"]
  const RecommendCues: seq<string> := ["推荐", "建议", "买什么", "选什么", "哪个好", "什么好"]

  /** The intents in the order `extractIntent` tries them, with their cues. */
  const Priority: seq<(Intent, seq<string>)> :=
    [(Health, HealthCues), (Cooking, CookingCues), (Price, PriceCues), (Taste, TasteCues), (Recommend, RecommendCues)]

  /** `keywords.some(keyword => text.includes(keyword))`. */
  function MatchKeywords(text: string, keywords: seq<string>): (r: bool)
    ensures r <==> exists i :: 0 <= i < |keywords| && Contains(text, keywords[i])
  {
    if keywords == [] then false
    else if Contains(text, keywords[0]) then true
    else
      var r := MatchKeywords(text, keywords[1..]);
      assert forall i :: 1 <= i < |keywords| ==> keywords[i] == keywords[1..][i - 1];
      r
  }

  /** `extractIntent(question)`: the chain of early returns. */
  function ExtractIntent(question: string): Intent
  {
    if MatchKeywords(question, HealthCues) then Health
    else if MatchKeywords(question, CookingCues) then Cooking
    else if MatchKeywords(question, PriceCues) then Price
    else if MatchKeywords(question, TasteCues) then Taste
    else if MatchKeywords(question, RecommendCues) then Recommend
    else Search
  }

  /** An entry of `Priority` fires when one of its cues occurs in the question. */
  function Fires(question: string): ((Intent, seq<string>)) -> bool
  {
    (e: (Intent, seq<string>)) => MatchKeywords(question, e.1)
  }

  /** The intent is that of the first entry in priority order whose cues
      occur in the question (health, cooking, price, taste, recommend), and
      `Search` exactly when no cue of any list occurs. */
  lemma ExtractIntentSpec(question: string)
    ensures ExtractIntent(question) == match FirstIndex(Priority, Fires(question))
      case None => Search
      case Some(i) => Priority[i].0
    ensures ExtractIntent(question) == Search <==>
      forall i :: 0 <= i < |Priority| ==> !MatchKeywords(question, Priority[i].1)
  {
    var p := Fires(question);
    var k := if p(Priority[0]) then 0 else if p(Priority[1]) then 1 else if p(Priority[2]) then 2
      else if p(Priority[3]) then 3 else if p(Priority[4]) then 4 else 5;
    if k < 5 {
      FirstIndexIs(Priority, p, k);
    } else {
      FirstIndexNone(Priority, p);
    }
  }

  /** A question in which no cue of a list starts with a character of the question matches none of them. */
  lemma NoCueMatches(question: string, cues: seq<string>)
    requires forall i :: 0 <= i < |cues| ==> |cues[i]| > 0 && cues[i][0] !in question
    ensures !MatchKeywords(question, cues)
  {
    forall i | 0 <= i < |cues| ensures !Contains(question, cues[i]) {
      if Contains(question, cues[i]) {
        ContainsChars(question, cues[i], 0);
      }
    }
  }

  /** The priority decides overlaps: `什么好吃` contains the recommend cue
      `什么好` but is classified as a taste question, because taste comes first. */
  lemma TasteBeforeRecommend()
    ensures MatchKeywords("什么好吃", RecommendCues)
    ensures ExtractIntent("什么好吃") == Taste
  {
    TasteFirst("什么好吃");
  }

  lemma TasteFirst(q: string)
    requires q == "什么好吃"
    ensures MatchKeywords(q, RecommendCues) && ExtractIntent(q) == Taste
  {
    EarlierCuesMiss(q);
    ContainsAt(q, "什么好", 0);
    assert RecommendCues[5] == "什么好";
    ContainsAt(q, "好吃", 2);
    assert TasteCues[0] == "好吃";
  }

  lemma EarlierCuesMiss(q: string)
    requires q == "什么好吃"
    ensures !MatchKeywords(q, HealthCues) && !MatchKeywords(q, CookingCues) && !MatchKeywords(q, PriceCues)
  {
    HealthCuesMiss(q);
    CookingCuesMiss(q);
    PriceCuesMiss(q);
  }

  lemma HealthCuesMiss(q: string)
    requires q == "什么好吃"
    ensures !MatchKeywords(q, HealthCues)
  {
    NoCueMatches(q, HealthCues);
  }

  lemma CookingCuesMiss(q: string)
    requires q == "什么好吃"
    ensures !MatchKeywords(q, CookingCues)
  {
    NoCueMatches(q, CookingCues);
  }

  lemma PriceCuesMiss(q: string)
    requires q == "什么好吃"
    ensures !MatchKeywords(q, PriceCues)
  {
    NoCueMatches(q, PriceCues);
  }

  /** The vocabulary `extractKeywords` looks for, in its four lists. */
  const FishNames: seq<string> := [
    "鲈鱼", "鲷鱼", "鲭鱼", "鲻鱼", "鳟鱼", "三文鱼", "金枪鱼",
    "带鱼", "黄鱼", "鲳鱼", "石斑鱼", "多宝鱼", "比目鱼",
    "虾", "小龙虾", "大虾", "基围虾", "对虾", "河虾",
    "蟹", "大闸蟹", "梭子蟹", "青蟹",
    "贝类", "扇贝", "生蚝", "蛤蜊", "蛏子", "海螺",
    "海参", "鲍鱼", "鱿鱼", "章鱼", "墨鱼",
    "鱼", "海鲜", "水产"]
  const CookingMethods: seq<string> := ["汤", "清蒸", "红烧", "煎", "烤", "炖", "煮", "炸", "蒸", "爆炒"]
  const HealthKeywords: seq<string> := ["营养", "蛋白质", "维生素", "补钙", "补铁", "DHA", "EPA", "omega", "低脂", "高蛋白"]
  const TasteKeywords: seq<string> := ["鲜", "嫩", "香", "甜", "清淡", "重口味"]

  /** The four lists in the order the loops visit them. */
  const Vocabulary: seq<string> := FishNames + CookingMethods + HealthKeywords + TasteKeywords

  /** The words of `vocabulary` that occur in `question`, in vocabulary order. */
  function Present(question: string, vocabulary: seq<string>): (r: seq<string>)
    ensures |r| <= |vocabulary|
    ensures forall w :: w in r <==> w in vocabulary && Contains(question, w)
  {
    if vocabulary == [] then []
    else
      var n := |vocabulary| - 1;
      var rest := Present(question, vocabulary[..n]);
      assert vocabulary == vocabulary[..n] + [vocabulary[n]];
      if Contains(question, vocabulary[n]) then rest + [vocabulary[n]] else rest
  }

  /** `extractKeywords(question)`, as a value. */
  function Keywords(question: string): seq<string>
  {
    Present(question, Vocabulary)
  }

  lemma {:induction false} PresentConcat(question: string, a: seq<string>, b: seq<string>)
    ensures Present(question, a + b) == Present(question, a) + Present(question, b)
  {
    if b == [] {
      assert a + b == a;
    } else {
      var n := |b| - 1;
      assert a + b == (a + b[..n]) + [b[n]];
      assert (a + b)[..|a + b| - 1] == a + b[..n];
      PresentConcat(question, a, b[..n]);
    }
  }

  lemma PresentStep(question: string, vocabulary: seq<string>, i: nat)
    requires i < |vocabulary|
    ensures Present(question, vocabulary[..i + 1])
         == Present(question, vocabulary[..i]) + (if Contains(question, vocabulary[i]) then [vocabulary[i]] else [])
  {
    assert vocabulary[..i + 1][..i] == vocabulary[..i];
  }

  /** One of the four loops of `extractKeywords`: each word of `list` that
      occurs in the question is pushed, in list order. */
  method PushPresent(question: string, list: seq<string>, keywords: seq<string>) returns (r: seq<string>)
    ensures r == keywords + Present(question, list)
  {
    r := keywords;
    for i := 0 to |list|
      invariant r == keywords + Present(question, list[..i])
    {
      PresentStep(question, list, i);
      if Contains(question, list[i]) {
        r := r + [list[i]];
      }
    }
    assert list[..|list|] == list;
  }

  method ExtractKeywords(question: string) returns (keywords: seq<string>)
    ensures keywords == Keywords(question)
  {
    keywords := [];
    keywords := PushPresent(question, FishNames, keywords);
    keywords := PushPresent(question, CookingMethods, keywords);
    keywords := PushPresent(question, HealthKeywords, keywords);
    keywords := PushPresent(question, TasteKeywords, keywords);
    PresentConcat(question, FishNames, CookingMethods);
    PresentConcat(question, FishNames + CookingMethods, HealthKeywords);
    PresentConcat(question, FishNames + CookingMethods + HealthKeywords, TasteKeywords);
  }

  predicate Distinct(ws: seq<string>)
  {
    forall i, j :: 0 <= i < j < |ws| ==> ws[i] != ws[j]
  }

  predicate DistinctWithin(ws: seq<string>, lo: int, hi: int, lo2: int, hi2: int)
  {
    forall i, j :: lo <= i < hi && lo2 <= j < hi2 && 0 <= i < j < |ws| ==> ws[i] != ws[j]
  }

  predicate Apart(v: seq<string>, w: seq<string>)
  {
    forall i, j :: 0 <= i < |v| && 0 <= j < |w| ==> v[i] != w[j]
  }

  lemma FishDistinct1()
    ensures DistinctWithin(FishNames, 0, 7, 0, 7)
  {
  }

  lemma FishDistinct1a()
    ensures DistinctWithin(FishNames, 0, 7, 7, 13)
  {
  }

  lemma FishDistinct1b()
    ensures DistinctWithin(FishNames, 7, 13, 7, 13)
  {
  }

  lemma FishDistinct2()
    ensures DistinctWithin(FishNames, 0, 13, 13, 19)
  {
  }

  lemma FishDistinct2a()
    ensures DistinctWithin(FishNames, 0, 13, 19, 25)
  {
  }

  lemma FishDistinct3()
    ensures DistinctWithin(FishNames, 0, 13, 25, 31)
  {
  }

  lemma FishDistinct3a()
    ensures DistinctWithin(FishNames, 0, 13, 31, 37)
  {
  }

  lemma FishDistinct4()
    ensures DistinctWithin(FishNames, 13, 25, 13, 25)
  {
  }

  lemma FishDistinct5()
    ensures DistinctWithin(FishNames, 13, 25, 25, 31)
  {
  }

  lemma FishDistinct5a()
    ensures DistinctWithin(FishNames, 13, 25, 31, 37)
  {
  }

  lemma FishDistinct6()
    ensures DistinctWithin(FishNames, 25, 37, 25, 37)
  {
  }

  lemma ListsDistinct()
    ensures Distinct(FishNames) && Distinct(CookingMethods) && Distinct(HealthKeywords) && Distinct(TasteKeywords)
  {
    FishDistinct1();
    FishDistinct1a();
    FishDistinct1b();
    FishDistinct2();
    FishDistinct2a();
    FishDistinct3();
    FishDistinct3a();
    FishDistinct4();
    FishDistinct5();
    FishDistinct5a();
    FishDistinct6();
  }

  lemma FishCookingApart()
    ensures Apart(FishNames, CookingMethods)
  {
    FirstCookingApart();
    LastCookingApart();
  }

  lemma FirstCookingApart()
    ensures forall i, j :: 0 <= i < |FishNames| && 0 <= j < 5 ==> FishNames[i] != CookingMethods[j]
  {
  }

  lemma LastCookingApart()
    ensures forall i, j :: 0 <= i < |FishNames| && 5 <= j < |CookingMethods| ==> FishNames[i] != CookingMethods[j]
  {
  }

  lemma FishHealthApart()
    ensures Apart(FishNames, HealthKeywords)
  {
    FirstHealthApart();
    LastHealthApart();
  }

  lemma FirstHealthApart()
    ensures forall i, j :: 0 <= i < |FishNames| && 0 <= j < 5 ==> FishNames[i] != HealthKeywords[j]
  {
  }

  lemma LastHealthApart()
    ensures forall i, j :: 0 <= i < |FishNames| && 5 <= j < |HealthKeywords| ==> FishNames[i] != HealthKeywords[j]
  {
  }

  lemma FishTasteApart()
    ensures Apart(FishNames, TasteKeywords)
  {
    FirstTasteApart();
    LastTasteApart();
  }

  lemma FirstTasteApart()
    ensures forall i, j :: 0 <= i < |FishNames| && 0 <= j < 3 ==> FishNames[i] != TasteKeywords[j]
  {
  }

  lemma LastTasteApart()
    ensures forall i, j :: 0 <= i < |FishNames| && 3 <= j < |TasteKeywords| ==> FishNames[i] != TasteKeywords[j]
  {
  }

  lemma OthersApart()
    ensures Apart(CookingMethods, HealthKeywords) && Apart(CookingMethods, TasteKeywords) && Apart(HealthKeywords, TasteKeywords)
  {
  }

  lemma DistinctConcat(a: seq<string>, b: seq<string>)
    requires Distinct(a) && Distinct(b) && Apart(a, b)
    ensures Distinct(a + b)
  {
    var c := a + b;
    forall i, j | 0 <= i < j < |c| ensures c[i] != c[j] {
      if j < |a| {
        assert c[i] == a[i] && c[j] == a[j];
      } else if i < |a| {
        assert c[i] == a[i] && c[j] == b[j - |a|];
      } else {
        assert c[i] == b[i - |a|] && c[j] == b[j - |a|];
      }
    }
  }

  lemma ApartConcat(a: seq<string>, b: seq<string>, w: seq<string>)
    requires Apart(a, w) && Apart(b, w)
    ensures Apart(a + b, w)
  {
    var c := a + b;
    forall i, j | 0 <= i < |c| && 0 <= j < |w| ensures c[i] != w[j] {
      if i < |a| {
        assert c[i] == a[i];
      } else {
        assert c[i] == b[i - |a|];
      }
    }
  }

  /** No word appears twice in the vocabulary, across all four lists. */
  lemma VocabularyDistinct()
    ensures Distinct(Vocabulary)
  {
    ListsDistinct();
    FishCookingApart();
    FishHealthApart();
    FishTasteApart();
    OthersApart();
    DistinctConcat(FishNames, CookingMethods);
    ApartConcat(FishNames, CookingMethods, HealthKeywords);
    DistinctConcat(FishNames + CookingMethods, HealthKeywords);
    ApartConcat(FishNames, CookingMethods, TasteKeywords);
    ApartConcat(FishNames + CookingMethods, HealthKeywords, TasteKeywords);
    DistinctConcat(FishNames + CookingMethods + HealthKeywords, TasteKeywords);
  }

  lemma {:induction false} PresentDistinct(question: string, vocabulary: seq<string>)
    requires Distinct(vocabulary)
    ensures Distinct(Present(question, vocabulary))
  {
    if vocabulary != [] {
      var n := |vocabulary| - 1;
      var init := vocabulary[..n];
      assert Distinct(init) by {
        forall i, j | 0 <= i < j < |init| ensures init[i] != init[j] {
          assert init[i] == vocabulary[i] && init[j] == vocabulary[j];
        }
      }
      PresentDistinct(question, init);
      assert vocabulary[n] !in init by {
        forall i | 0 <= i < n ensures init[i] != vocabulary[n] {
          assert init[i] == vocabulary[i];
        }
      }
    }
  }

  /** The keywords are exactly the vocabulary words that occur in the
      question, each listed once, in vocabulary order. */
  lemma KeywordsSpec(question: string)
    ensures Keywords(question) == Present(question, FishNames) + Present(question, CookingMethods)
      + Present(question, HealthKeywords) + Present(question, TasteKeywords)
    ensures forall w :: w in Keywords(question) <==> w in Vocabulary && Contains(question, w)
    ensures Distinct(Keywords(question))
  {
    PresentConcat(question, FishNames, CookingMethods);
    PresentConcat(question, FishNames + CookingMethods, HealthKeywords);
    PresentConcat(question, FishNames + CookingMethods + HealthKeywords, TasteKeywords);
    VocabularyDistinct();
    PresentDistinct(question, Vocabulary);
  }

  /** `question.trim().toLowerCase()`. */
  function Normalize(question: string): string
  {
    ToLower(Trim(question))
  }

  /** The question is lower-cased before extraction, so the upper-case
      vocabulary entries `DHA` and `EPA` are never returned. */
  lemma UpperCaseNeverExtracted(question: string)
    ensures "DHA" !in Keywords(Normalize(question))
    ensures "EPA" !in Keywords(Normalize(question))
  {
    var q := Normalize(question);
    if Contains(q, "DHA") {
      ContainsChars(q, "DHA", 0);
      LowerHasNoUpper(Trim(question), 'D');
    }
    if Contains(q, "EPA") {
      ContainsChars(q, "EPA", 0);
      LowerHasNoUpper(Trim(question), 'E');
    }
  }

  /** The words whose presence among the keywords would select the cold-specific health opening. */
  const ColdCues: seq<string> := ["感冒", "生病"]

  predicate Avoids(ws: seq<string>, c: char)
  {
    forall k :: 0 <= k < |ws| ==> c !in ws[k]
  }

  lemma FishAvoidGan()
    ensures Avoids(FishNames, '感')
  {
  }

  lemma FishAvoidBing()
    ensures Avoids(FishNames, '病')
  {
  }

  lemma OthersAvoidGan()
    ensures Avoids(CookingMethods, '感') && Avoids(HealthKeywords, '感') && Avoids(TasteKeywords, '感')
  {
  }

  lemma OthersAvoidBing()
    ensures Avoids(CookingMethods, '病') && Avoids(HealthKeywords, '病') && Avoids(TasteKeywords, '病')
  {
  }

  lemma AvoidsConcat(a: seq<string>, b: seq<string>, c: char)
    requires Avoids(a, c) && Avoids(b, c)
    ensures Avoids(a + b, c)
  {
    forall k | 0 <= k < |a + b| ensures c !in (a + b)[k] {
      if k < |a| { assert (a + b)[k] == a[k]; } else { assert (a + b)[k] == b[k - |a|]; }
    }
  }

  lemma KeywordsAvoid(question: string, c: char)
    requires c == '感' || c == '病'
    ensures Avoids(Keywords(question), c)
  {
    FishAvoidGan();
    FishAvoidBing();
    OthersAvoidGan();
    OthersAvoidBing();
    AvoidsConcat(FishNames, CookingMethods, c);
    AvoidsConcat(FishNames + CookingMethods, HealthKeywords, c);
    AvoidsConcat(FishNames + CookingMethods + HealthKeywords, TasteKeywords, c);
    var ks := Keywords(question);
    var v := Vocabulary;
    forall k | 0 <= k < |ks| ensures c !in ks[k] {
      assert ks[k] in v;
      var m :| 0 <= m < |v| && v[m] == ks[k];
    }
  }

  /** No extractable keyword contains `感` or `病`, and neither does the
      space that joins them, so the cold-specific opening of a health
      answer is never chosen. */
  lemma ColdOpeningUnreachable(question: string)
    ensures !MatchKeywords(Join(Keywords(question), " "), ColdCues)
  {
    var text := Join(Keywords(question), " ");
    KeywordsAvoid(question, '感');
    KeywordsAvoid(question, '病');
    JoinAvoids(Keywords(question), " ", '感');
    JoinAvoids(Keywords(question), " ", '病');
    if Contains(text, "感冒") {
      ContainsChars(text, "感冒", 0);
    }
    if Contains(text, "生病") {
      ContainsChars(text, "生病", 1);
    }
  }

  /** The product fields the answer prints. `price` is the text of the
      DECIMAL column as the database driver returns it. */
  datatype ChatProduct = ChatProduct(
    name: string,
    price: string,
    stock: int,
    description: Option<string>,
    nutritionInfo: Option<string>,
    cookingTips: Option<string>)

  /** A nullable text column in a JavaScript condition: `null` and `''` are falsy. */
  predicate Truthy(text: Option<string>)
  {
    text.Some? && text.value != ""
  }

  /** `text.substring(0, n)` followed by `...` when the text is longer than `n`. */
  function Excerpt(text: string, n: nat): (r: string)
    ensures |text| <= n ==> r == text
    ensures |text| > n ==> |r| == n + 3 && r[..n] == text[..n]
    ensures |text| > n ==> r == text[..n] + "..."
  {
    (if |text| <= n then text else text[..n]) + (if |text| > n then "..." else "")
  }

  /** `${index + 1}. ${product.name} - ¥${product.price}`. */
  function Head(index: nat, p: ChatProduct): string
  {
    NatToString(index + 1) + ". " + p.name + " - ¥" + p.price
  }

  /** What the `forEach` of each intent appends for the product at `index`. */
  function Line(intent: Intent, index: nat, p: ChatProduct): string
  {
    match intent
    case Health =>
      Head(index, p) + "\n"
      + (if Truthy(p.nutritionInfo) then "   💊 " + Excerpt(p.nutritionInfo.value, 60) + "\n" else "") + "\n"
    case Cooking =>
      Head(index, p) + "\n"
      + (if Truthy(p.cookingTips) then "   🍳 烹饪建议：" + Excerpt(p.cookingTips.value, 100) + "\n" else "") + "\n"
    case Price =>
      Head(index, p) + "（库存：" + IntToString(p.stock) + "）\n"
    case Taste =>
      Head(index, p) + "\n"
      + (if Truthy(p.description) then "   🍽️ " + Excerpt(p.description.value, 80) + "\n" else "") + "\n"
    case Recommend =>
      Head(index, p) + "\n"
      + (if Truthy(p.description) then "   " + Excerpt(p.description.value, 70) + "\n" else "") + "\n"
    case Search =>
      Head(index, p) + (if p.stock > 0 then "（库存：" + IntToString(p.stock) + "）" else "") + "\n"
  }

  /** The lines of the listed products, numbered from 1 in list order. */
  function Lines(intent: Intent, products: seq<ChatProduct>): string
  {
    if products == [] then ""
    else
      var n := |products| - 1;
      Lines(intent, products[..n]) + Line(intent, n, products[n])
  }

  /** The products an intent lists: `products.slice(0, 5)` for price questions, all of them otherwise. */
  function Listed(intent: Intent, products: seq<ChatProduct>): (r: seq<ChatProduct>)
    ensures intent == Price ==> |r| == if |products| < 5 then |products| else 5
    ensures intent != Price ==> r == products
    ensures r <= products
  {
    if intent == Price && |products| > 5 then products[..5] else products
  }

  const HealthOpening: string := "根据您的健康需求，我为您推荐以下营养丰富的商品：\n\n"
  const ColdOpening: string := "感冒期间建议选择营养丰富、易于消化的商品。我为您推荐：\n\n"

  function SearchOpening(count: nat): string
  {
    if count == 1 then "为您找到 1 个相关商品：\n\n" else "为您找到 " + NatToString(count) + " 个相关商品：\n\n"
  }

  /** The text each intent starts its answer with. */
  function Opening(intent: Intent, keywords: seq<string>, count: nat): string
  {
    match intent
    case Health => if MatchKeywords(Join(keywords, " "), ColdCues) then ColdOpening else HealthOpening
    case Cooking => "根据您的烹饪需求，我为您推荐以下适合的商品：\n\n"
    case Price => "根据您的价格需求，我为您推荐以下性价比高的商品：\n\n"
    case Taste => "根据您的口味偏好，我为您推荐以下美味的商品：\n\n"
    case Recommend => "根据您的需求，我为您推荐以下商品：\n\n"
    case Search => SearchOpening(count)
  }

  /** The text each intent ends its answer with. */
  function Closing(intent: Intent): string
  {
    match intent
    case Health => "💡 这些商品富含优质蛋白质和多种维生素，有助于身体恢复。建议选择清蒸或炖汤的烹饪方式，既保留了营养，又易于消化。"
    case Cooking => "💡 这些商品都适合您提到的烹饪方式，您可以查看商品详情了解更多烹饪技巧。"
    case Price => "\n💡 这些都是价格实惠、品质优良的选择。"
    case Taste => "💡 这些都是新鲜美味的选择，您可以点击商品查看详细信息。"
    case Recommend => "💡 这些都是不错的选择，您可以点击商品查看详细信息。"
    case Search => "\n💡 您可以点击商品查看详细信息。"
  }

  const NoMatchBefore: string := "抱歉，没有找到包含\""
  const NoMatchAfter: string :=
    "\"的商品。\n\n您可以尝试：\n• 使用其他关键词搜索\n• 告诉我您的具体需求（比如\"好吃的鱼\"、\"便宜的虾\"）\n• 或者直接问我\"推荐一些商品\""
  const NothingFound: string :=
    "抱歉，没有找到符合您需求的商品。\n\n您可以尝试：\n• 使用其他关键词搜索\n• 告诉我您的具体需求\n• 或者直接问我\"推荐一些商品\""

  /** `generateAnswer(intent, keywords, products)`, as a value. */
  function Answer(intent: Intent, keywords: seq<string>, products: seq<ChatProduct>): string
  {
    if |products| == 0 then
      if |keywords| > 0 then NoMatchBefore + Join(keywords, "、") + NoMatchAfter else NothingFound
    else
      Opening(intent, keywords, |products|) + Lines(intent, Listed(intent, products)) + Closing(intent)
  }

  /** The bodies of the `forEach` loops, one per intent: each appends the
      line of the product at `index`. */
  method AppendHealthLine(index: nat, product: ChatProduct, answer: string) returns (r: string)
    ensures r == answer + Line(Health, index, product)
  {
    r := answer + Head(index, product) + "\n";
    if Truthy(product.nutritionInfo) {
      r := r + ("   💊 " + Excerpt(product.nutritionInfo.value, 60) + "\n");
    }
    r := r + "\n";
  }

  method AppendCookingLine(index: nat, product: ChatProduct, answer: string) returns (r: string)
    ensures r == answer + Line(Cooking, index, product)
  {
    r := answer + Head(index, product) + "\n";
    if Truthy(product.cookingTips) {
      r := r + ("   🍳 烹饪建议：" + Excerpt(product.cookingTips.value, 100) + "\n");
    }
    r := r + "\n";
  }

  method AppendPriceLine(index: nat, product: ChatProduct, answer: string) returns (r: string)
    ensures r == answer + Line(Price, index, product)
  {
    r := answer + Head(index, product) + ("（库存：" + IntToString(product.stock) + "）\n");
  }

  method AppendTasteLine(index: nat, product: ChatProduct, answer: string) returns (r: string)
    ensures r == answer + Line(Taste, index, product)
  {
    r := answer + Head(index, product) + "\n";
    if Truthy(product.description) {
      r := r + ("   🍽️ " + Excerpt(product.description.value, 80) + "\n");
    }
    r := r + "\n";
  }

  method AppendRecommendLine(index: nat, product: ChatProduct, answer: string) returns (r: string)
    ensures r == answer + Line(Recommend, index, product)
  {
    r := answer + Head(index, product) + "\n";
    if Truthy(product.description) {
      r := r + ("   " + Excerpt(product.description.value, 70) + "\n");
    }
    r := r + "\n";
  }

  method AppendSearchLine(index: nat, product: ChatProduct, answer: string) returns (r: string)
    ensures r == answer + Line(Search, index, product)
  {
    r := answer + Head(index, product);
    if product.stock > 0 {
      r := r + ("（库存：" + IntToString(product.stock) + "）");
    }
    r := r + "\n";
  }

  method AppendLine(intent: Intent, index: nat, product: ChatProduct, answer: string) returns (r: string)
    ensures r == answer + Line(intent, index, product)
  {
    match intent {
      case Health => r := AppendHealthLine(index, product, answer);
      case Cooking => r := AppendCookingLine(index, product, answer);
      case Price => r := AppendPriceLine(index, product, answer);
      case Taste => r := AppendTasteLine(index, product, answer);
      case Recommend => r := AppendRecommendLine(index, product, answer);
      case Search => r := AppendSearchLine(index, product, answer);
    }
  }

  lemma LinesStep(intent: Intent, products: seq<ChatProduct>, index: nat, answer: string, before: string, after: string)
    requires index < |products|
    requires before == answer + Lines(intent, products[..index])
    requires after == before + Line(intent, index, products[index])
    ensures after == answer + Lines(intent, products[..index + 1])
  {
    var longer := products[..index + 1];
    assert longer[..index] == products[..index];
    assert longer[index] == products[index];
    assert Lines(intent, longer) == Lines(intent, products[..index]) + Line(intent, index, products[index]);
    Associative(answer, Lines(intent, products[..index]), Line(intent, index, products[index]));
  }

  /** The `forEach` loop of one intent: appends the line of every product, numbered from 1. */
  method AppendLines(intent: Intent, products: seq<ChatProduct>, answer: string) returns (r: string)
    ensures r == answer + Lines(intent, products)
  {
    r := answer;
    for index := 0 to |products|
      invariant r == answer + Lines(intent, products[..index])
    {
      ghost var before := r;
      r := AppendLine(intent, index, products[index], r);
      LinesStep(intent, products, index, answer, before, r);
    }
    assert products[..|products|] == products;
  }

  method GenerateAnswer(intent: Intent, keywords: seq<string>, products: seq<ChatProduct>) returns (answer: string)
    ensures answer == Answer(intent, keywords, products)
  {
    if |products| == 0 {
      if |keywords| > 0 {
        return NoMatchBefore + Join(keywords, "、") + NoMatchAfter;
      }
      return NothingFound;
    }
    answer := "";
    match intent {
      case Health =>
        answer := HealthOpening;
        if MatchKeywords(Join(keywords, " "), ColdCues) {
          answer := ColdOpening;
        }
      case Cooking =>
        answer := "根据您的烹饪需求，我为您推荐以下适合的商品：\n\n";
      case Price =>
        answer := "根据您的价格需求，我为您推荐以下性价比高的商品：\n\n";
      case Taste =>
        answer := "根据您的口味偏好，我为您推荐以下美味的商品：\n\n";
      case Recommend =>
        answer := "根据您的需求，我为您推荐以下商品：\n\n";
      case Search =>
        if |products| == 1 {
          answer := "为您找到 1 个相关商品：\n\n";
        } else {
          answer := "为您找到 " + NatToString(|products|) + " 个相关商品：\n\n";
        }
    }
    var shown := if intent == Price && |products| > 5 then products[..5] else products;
    answer := AppendLines(intent, shown, answer);
    answer := answer + Closing(intent);
  }

  /** Every listed product has its numbered line: the `k`-th line carries number `k + 1`. */
  lemma {:induction false} LinesContain(intent: Intent, products: seq<ChatProduct>, k: nat)
    requires k < |products|
    ensures Contains(Lines(intent, products), Line(intent, k, products[k]))
  {
    var n := |products| - 1;
    var init := Lines(intent, products[..n]);
    if k == n {
      ContainsAt(init + Line(intent, n, products[n]), Line(intent, k, products[k]), |init|);
    } else {
      LinesContain(intent, products[..n], k);
      ContainsPrefix(init, Line(intent, n, products[n]), Line(intent, k, products[k]));
    }
  }

  lemma {:induction false} ContainsPrefix(s: string, t: string, w: string)
    requires Contains(s, w)
    ensures Contains(s + t, w)
    decreases |s|
  {
    if !(w <= s) {
      assert (s + t)[1..] == s[1..] + t;
      ContainsPrefix(s[1..], t, w);
    }
  }

  /** With no products the answer does not depend on the intent, and it
      names the keywords joined by `、` when there are any. */
  lemma NoProductsAnswer(intent: Intent, other: Intent, keywords: seq<string>)
    ensures Answer(intent, keywords, []) == Answer(other, keywords, [])
    ensures |keywords| > 0 ==> Contains(Answer(intent, keywords, []), Join(keywords, "、"))
    ensures |keywords| == 0 ==> Answer(intent, keywords, []) == NothingFound
  {
    if |keywords| > 0 {
      NamesKeywords(Join(keywords, "、"));
    }
  }

  lemma NamesKeywords(j: string)
    ensures Contains(NoMatchBefore + j + NoMatchAfter, j)
  {
    ContainsAt(j, j, 0);
    ContainsPrefix(j, NoMatchAfter, j);
    ContainsSuffix(NoMatchBefore, j + NoMatchAfter, j);
    Associative(NoMatchBefore, j, NoMatchAfter);
  }

  /** A price answer lists at most the first five products: it is the same
      whatever comes after them. */
  lemma PriceListsFive(keywords: seq<string>, products: seq<ChatProduct>, more: seq<ChatProduct>)
    requires |products| >= 5
    ensures Answer(Price, keywords, products + more) == Answer(Price, keywords, products)
  {
    assert Listed(Price, products + more) == Listed(Price, products) by {
      assert (products + more)[..5] == products[..5];
    }
  }

  /** Every listed product at position `k` has its line, numbered `k + 1`, in
      the answer: all products for every intent but price, the first five for
      price. */
  lemma ListedProducts(intent: Intent, keywords: seq<string>, products: seq<ChatProduct>)
    ensures forall k :: 0 <= k < |Listed(intent, products)| ==>
      Contains(Answer(intent, keywords, products), Line(intent, k, products[k]))
  {
    forall k | 0 <= k < |Listed(intent, products)|
      ensures Contains(Answer(intent, keywords, products), Line(intent, k, products[k]))
    {
      var o, l := Opening(intent, keywords, |products|), Lines(intent, Listed(intent, products));
      LinesContain(intent, Listed(intent, products), k);
      ContainsPrefix(l, Closing(intent), Line(intent, k, products[k]));
      ContainsSuffix(o, l + Closing(intent), Line(intent, k, products[k]));
      Associative(o, l, Closing(intent));
    }
  }

  lemma {:induction false} ContainsSuffix(s: string, t: string, w: string)
    requires Contains(t, w)
    ensures Contains(s + t, w)
    decreases |s|
  {
    if s != [] {
      assert (s + t)[1..] == s[1..] + t;
      ContainsSuffix(s[1..], t, w);
    } else {
      assert s + t == t;
    }
  }

  /** The two branches of the search opening print the same text: the
      answer to a search question starts with the number of products found. */
  lemma SearchOpeningCount(keywords: seq<string>, products: seq<ChatProduct>)
    requires |products| > 0
    ensures "为您找到 " + NatToString(|products|) + " 个相关商品：\n\n" <= Answer(Search, keywords, products)
  {
    var o := "为您找到 " + NatToString(|products|) + " 个相关商品：\n\n";
    SearchOpeningForms(|products|);
    Associative(o, Lines(Search, Listed(Search, products)), Closing(Search));
  }

  lemma SearchOpeningForms(count: nat)
    ensures SearchOpening(count) == "为您找到 " + NatToString(count) + " 个相关商品：\n\n"
  {
    if count == 1 {
      OneText(NatToString(count));
    }
  }

  lemma OneText(one: string)
    requires one == NatToString(1)
    ensures "为您找到 1 个相关商品：\n\n" == "为您找到 " + one + " 个相关商品：\n\n"
  {
  }

  /** The excerpts of the long texts stay within their limit plus the three dots. */
  lemma ExcerptBound(text: string, n: nat)
    ensures |Excerpt(text, n)| <= n + 3
    ensures text[..if |text| < n then |text| else n] <= Excerpt(text, n)
  {
  }

  /** The reply of `chat` and of each of its paths. */
  datatype Reply = Reply(answer: string, products: seq<ChatProduct>, keywords: seq<string>)

  /** `chatWithLocalRules(question)`; `search` stands for the product query
      `searchProducts(intent, keywords, normalizedQuestion)`. */
  function LocalReply(question: string, search: (Intent, seq<string>, string) -> seq<ChatProduct>): Reply
  {
    var q := Normalize(question);
    var intent := ExtractIntent(q);
    var keywords := Keywords(q);
    var products := search(intent, keywords, q);
    Reply(Answer(intent, keywords, products), products, keywords)
  }

  /** `chat(userId, question)`. `remote` is what `chatWithDeepSeek` yields
      when called: a reply, or `None` for `null` (it turns every failure,
      a timeout included, into `null`). */
  function ChatReply(apiKey: string, remote: Option<Reply>, question: string,
                     search: (Intent, seq<string>, string) -> seq<ChatProduct>): Reply
  {
    if apiKey != "" && remote.Some? then remote.value else LocalReply(question, search)
  }

  /** The local rules answer when no key is configured, whatever the remote
      path would say, and when the remote path yields nothing; otherwise the
      remote reply is returned as is. */
  lemma ChatFallback(apiKey: string, remote: Option<Reply>, other: Option<Reply>, question: string,
                     search: (Intent, seq<string>, string) -> seq<ChatProduct>)
    ensures apiKey == "" ==> ChatReply(apiKey, remote, question, search) == ChatReply(apiKey, other, question, search)
    ensures (apiKey == "" || remote.None?) ==> ChatReply(apiKey, remote, question, search) == LocalReply(question, search)
    ensures apiKey != "" && remote.Some? ==> ChatReply(apiKey, remote, question, search) == remote.value
  {
  }

  /** A health answer that lists products opens with the general health
      text whenever the keywords name no cold symptom. */
  lemma HealthAnswerOpening(keywords: seq<string>, products: seq<ChatProduct>)
    requires products != [] && !MatchKeywords(Join(keywords, " "), ColdCues)
    ensures HealthOpening <= Answer(Health, keywords, products)
  {
    var opening := Opening(Health, keywords, |products|);
    assert opening == HealthOpening;
    var lines := Lines(Health, Listed(Health, products));
    Associative(opening, lines, Closing(Health));
  }

  /** A health answer of the local rules never takes the cold-specific
      opening: the extracted keywords cannot name a cold symptom. */
  lemma LocalHealthOpening(question: string, search: (Intent, seq<string>, string) -> seq<ChatProduct>)
    ensures var q := Normalize(question);
      ExtractIntent(q) == Health && search(Health, Keywords(q), q) != [] ==>
      HealthOpening <= LocalReply(question, search).answer
  {
    var q := Normalize(question);
    ColdOpeningUnreachable(q);
    if ExtractIntent(q) == Health && search(Health, Keywords(q), q) != [] {
      HealthAnswerOpening(Keywords(q), search(Health, Keywords(q), q));
    }
  }

  method ChatWithLocalRules(question: string, search: (Intent, seq<string>, string) -> seq<ChatProduct>)
    returns (reply: Reply)
    ensures reply == LocalReply(question, search)
  {
    var normalizedQuestion := ToLower(Trim(question));
    var intent := ExtractIntent(normalizedQuestion);
    var keywords := ExtractKeywords(normalizedQuestion);
    var products := search(intent, keywords, normalizedQuestion);
    var answer := GenerateAnswer(intent, keywords, products);
    reply := Reply(answer, products, keywords);
  }

  method Chat(apiKey: string, remote: Option<Reply>, question: string,
              search: (Intent, seq<string>, string) -> seq<ChatProduct>) returns (reply: Reply)
    ensures reply == ChatReply(apiKey, remote, question, search)
  {
    if apiKey != "" {
      if remote.Some? {
        return remote.value;
      }
    }
    reply := ChatWithLocalRules(question, search);
  }
}
