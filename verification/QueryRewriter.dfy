/** The rule-based rewriter that decides whether a low-confidence query is worth another attempt. */
module QueryRewriter {
  import opened TextTools

  const EXPANSIONS: seq<(string, string)> := [
    ("胎压", "TPMS 轮胎气压 报警灯 推荐胎压 安全驾驶"),
    ("充电", "动力电池 充电状态 充电安全 续航"),
    ("快充", "直流快充 高电量 降低充电功率"),
    ("电池", "动力电池 电量 续航 电池保养"),
    ("电动车", "电动汽车 动力电池 充电 续航"),
    ("续航", "电池电量 低温续航 行程规划"),
    ("冬季", "低温 电池预热 续航余量"),
    ("停放", "长期停放 电量 持续耗电"),
    ("长期", "长期停放 电池存放 电量"),
    ("保养", "车辆维护 保养周期 检查项目"),
    ("刹车", "制动系统 制动警告灯 安全停车"),
    ("制动", "制动系统 制动警告灯 安全停车"),
    ("车道", "车道保持 LKA 驾驶辅助"),
    ("自适应巡航", "ACC 自适应巡航 驾驶辅助"),
    ("雨刮", "雨刮器 刮水器 更换维护")]

  const LATE_ADDITION := " 用户手册 故障原因 操作步骤 安全注意事项"

  function Rewrite(query: string, attempt: nat): string {
    var additions := Matching(EXPANSIONS, query);
    if additions == [] then query else
    Normalize(query + " " + Join(additions, " ") + if attempt >= 2 then LATE_ADDITION else "")
  }

  predicate Expandable(query: string) {
    exists i :: 0 <= i < |EXPANSIONS| && Contains(query, EXPANSIONS[i].0)
  }

  lemma {:induction false} MatchingIsEmptyIff(table: seq<(string, string)>, text: string)
    ensures Matching(table, text) == [] <==> forall i :: 0 <= i < |table| ==> !Contains(text, table[i].0)
    ensures forall v :: v in Matching(table, text) ==> exists i :: 0 <= i < |table| && table[i].1 == v
  {
    if table != [] {
      MatchingIsEmptyIff(table[1..], text);
      assert forall i :: 0 < i < |table| ==> table[i] == table[1..][i - 1];
      assert forall i :: 0 <= i < |table| - 1 ==> table[1..][i] == table[i + 1];
    }
  }

  predicate Speaks(s: string) { s != "" && !IsSpace(s[0]) }

  lemma ExpansionsSpeak()
    ensures forall i :: 0 <= i < |EXPANSIONS| ==> Speaks(EXPANSIONS[i].1)
  {
  }

  /** What a rewrite says, whitespace aside: the query, then the additions. */
  lemma RewriteSays(query: string, attempt: nat)
    ensures !Expandable(query) ==> Rewrite(query, attempt) == query
    ensures Expandable(query) ==>
              var additions := Matching(EXPANSIONS, query);
              && additions != []
              && NonSpace(Rewrite(query, attempt))
                 == NonSpace(query) + NonSpace(Join(additions, " ")) + if attempt >= 2 then NonSpace(LATE_ADDITION) else ""
  {
    hide NonSpace, Normalize, Contains, Matching;
    MatchingIsEmptyIff(EXPANSIONS, query);
    if Expandable(query) {
      var additions := Matching(EXPANSIONS, query);
      var joined := Join(additions, " ");
      var late := if attempt >= 2 then LATE_ADDITION else "";
      NormalizeKeeps(query + " " + joined + late);
      NonSpaceConcat(query + " " + joined, late);
      NonSpaceConcat(query + " ", joined);
      NonSpaceConcat(query, " ");
      SpaceIsBlank();
      NonSpaceBlank(" ");
      NonSpaceBlank("");
    }
  }

  /** What a rewrite says, word for word: the words of the query, then those of each addition, then, from the second
      attempt on, those of the late addition. */
  lemma RewriteWords(query: string, attempt: nat)
    requires Expandable(query)
    ensures Words(Rewrite(query, attempt))
            == Words(query) + AllWords(Matching(EXPANSIONS, query)) + if attempt >= 2 then Words(LATE_ADDITION) else []
    ensures Tidy(Rewrite(query, attempt))
  {
    hide Words, Normalize, Contains, Matching, Tidy, NonSpace, Spelled, AllWords;
    MatchingIsEmptyIff(EXPANSIONS, query);
    var joined := Join(Matching(EXPANSIONS, query), " ");
    var late := if attempt >= 2 then LATE_ADDITION else "";
    NormalizeKeeps(query + " " + joined + late);
    SpaceThenWords(query, joined);
    WordsOfJoined(Matching(EXPANSIONS, query));
    NoWords();
    assert late == "" || IsSpace(late[0]);
    WordsConcat(query + " " + joined, late);
  }

  lemma AdditionsSpeak(query: string)
    requires Expandable(query)
    ensures |NonSpace(Join(Matching(EXPANSIONS, query), " "))| > 0
  {
    hide Contains;
    MatchingIsEmptyIff(EXPANSIONS, query);
    ExpansionsSpeak();
    var additions := Matching(EXPANSIONS, query);
    assert additions[0] in additions;
    SpaceIsBlank();
    NonSpaceJoin(additions, " ");
  }

  lemma LateAdditionSpeaks()
    ensures |NonSpace(LATE_ADDITION)| > 0
  {
    assert !IsSpace(LATE_ADDITION[1]);
    NonSpaceBlank(LATE_ADDITION);
  }

  /** A rewrite changes the query exactly when an expansion key occurs in it, and the second rewrite then
      differs from the first. */
  lemma RewriteChangesIff(query: string)
    ensures Rewrite(query, 1) != query <==> Expandable(query)
    ensures Rewrite(query, 2) != Rewrite(query, 1) <==> Expandable(query)
  {
    hide Rewrite, Contains, NonSpace, Expandable;
    RewriteSays(query, 1);
    RewriteSays(query, 2);
    if Expandable(query) {
      AdditionsSpeak(query);
      LateAdditionSpeaks();
    }
  }
}
