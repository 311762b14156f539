/**
  The business-visualisation prompt builder: per-category option selection, section expansion
  flags, ordered assembly of the prompt, and template substitution of `{{subject}}`.
 */
module PromptBuilder {
  import opened Wrappers
  import opened Text

  /** The order in which selected categories enter the prompt. */
  const ElementOrder: seq<string> := ["chartType", "diagramType", "framework", "colorScheme", "style", "dataLabels"]

  /** The quality phrase that closes every non-empty prompt. */
  const QualitySuffix: string := "professional business presentation quality, clean and readable"

  const PartSeparator: string := ", "

  const SubjectPlaceholder: string := "{{subject}}"

  /** What a template gets in place of the subject when none was entered. */
  const MissingSubject: string := "[데이터/주제를 입력하세요]"

  /** Which sections start expanded. */
  const InitialExpanded: map<string, bool> := map[
    "chartType" := true, "diagramType" := true, "framework" := false,
    "colorScheme" := false, "style" := false, "dataLabels" := false]

  // ----- Section flags and selections -----

  /** A flag is set when present and true (`prev[section]` is `undefined` otherwise). */
  predicate Expanded(flags: map<string, bool>, section: string) {
    section in flags && flags[section]
  }

  /** `toggleSection`: the named section's flag is flipped; every other flag is kept. */
  function ToggleSection(flags: map<string, bool>, section: string): (r: map<string, bool>)
    ensures r.Keys == flags.Keys + {section}
    ensures Expanded(r, section) == !Expanded(flags, section)
    ensures forall s :: s in flags && s != section ==> r[s] == flags[s]
  {
    flags[section := !Expanded(flags, section)]
  }

  /** Toggling a section twice restores its flag and leaves the others as they were. */
  lemma ToggleTwice(flags: map<string, bool>, section: string)
    ensures forall s :: Expanded(ToggleSection(ToggleSection(flags, section), section), s) == Expanded(flags, s)
  {
  }

  /**
    `selectElement`: choosing the value a category already has clears that category; any other
    value sets or replaces it. Other categories are kept.
   */
  function SelectElement(selected: map<string, string>, category: string, value: string): (r: map<string, string>)
    ensures category in r <==> !(category in selected && selected[category] == value)
    ensures category in r ==> r[category] == value
    ensures forall c :: c != category ==> (c in r <==> c in selected)
    ensures forall c :: c != category && c in r ==> r[c] == selected[c]
  {
    if category in selected && selected[category] == value then selected - {category}
    else selected[category := value]
  }

  /**
    Choosing the same value twice undoes the first choice when the category held that value,
    and leaves the category cleared otherwise.
   */
  lemma SelectTwice(selected: map<string, string>, category: string, value: string)
    ensures SelectElement(SelectElement(selected, category, value), category, value)
         == if category in selected && selected[category] == value then selected else selected - {category}
  {
    var once := SelectElement(selected, category, value);
    var twice := SelectElement(once, category, value);
    if category in selected && selected[category] == value {
      assert twice.Keys == selected.Keys;
    } else {
      assert twice.Keys == selected.Keys - {category};
    }
  }

  // ----- Prompt assembly -----

  /** A category contributes when it has a truthy (non-empty) value. */
  predicate IsSelected(selected: map<string, string>, key: string) {
    key in selected && selected[key] != ""
  }

  /** The selected values of `keys`, in the order of `keys`. */
  function SelectedValues(keys: seq<string>, selected: map<string, string>): (r: seq<string>)
    ensures |r| <= |keys|
    ensures forall i :: 0 <= i < |r| ==> r[i] != ""
    ensures r == [] <==> forall i :: 0 <= i < |keys| ==> !IsSelected(selected, keys[i])
  {
    if |keys| == 0 then []
    else
      var last := keys[|keys| - 1];
      SelectedValues(keys[..|keys| - 1], selected) + (if IsSelected(selected, last) then [selected[last]] else [])
  }

  /** Selected values of consecutive key lists come one after the other. */
  lemma {:induction false} SelectedValuesAppend(a: seq<string>, b: seq<string>, selected: map<string, string>)
    ensures SelectedValues(a + b, selected) == SelectedValues(a, selected) + SelectedValues(b, selected)
    decreases |b|
  {
    if |b| > 0 {
      var b' := b[..|b| - 1];
      assert (a + b)[..|a + b| - 1] == a + b';
      SelectedValuesAppend(a, b', selected);
    } else {
      assert a + b == a;
    }
  }

  /**
    The parts of the prompt: the trimmed subject when it is not blank, then the selected values
    in `ElementOrder`, then the quality suffix if anything came before it.
   */
  function PromptParts(subject: string, selected: map<string, string>): (r: seq<string>)
    ensures r == [] <==> Trim(subject) == "" && SelectedValues(ElementOrder, selected) == []
    ensures r != [] ==> r[|r| - 1] == QualitySuffix
    ensures Trim(subject) != "" ==> r[0] == Trim(subject)
    ensures r != [] ==>
      var k := if Trim(subject) != "" then 1 else 0;
      k < |r| && r[k..|r| - 1] == SelectedValues(ElementOrder, selected)
  {
    var head := if Trim(subject) != "" then [Trim(subject)] else [];
    var body := head + SelectedValues(ElementOrder, selected);
    if |body| > 0 then body + [QualitySuffix] else body
  }

  /** The prompt text the builder produces: its parts joined with `", "`. */
  function PromptText(subject: string, selected: map<string, string>): string {
    Join(PromptParts(subject, selected), PartSeparator)
  }

  /**
    The prompt is empty exactly when the subject is blank and no category is selected; any
    other prompt ends with the quality suffix.
   */
  lemma PromptTextEmptyIff(subject: string, selected: map<string, string>)
    ensures PromptText(subject, selected) == "" <==>
      Trim(subject) == "" && forall k :: k in ElementOrder ==> !IsSelected(selected, k)
    ensures PromptText(subject, selected) != "" ==>
      var t := PromptText(subject, selected);
      |QualitySuffix| <= |t| && t[|t| - |QualitySuffix|..] == QualitySuffix
  {
    var parts := PromptParts(subject, selected);
    JoinEmpty(parts, PartSeparator);
    if parts != [] {
      JoinEnds(parts, PartSeparator);
    }
  }

  /**
    `generatePrompt`: the parts list is built by pushing the trimmed subject and each selected
    category in `ElementOrder`, then the suffix, and joined with `", "`.
   */
  method GeneratePrompt(subject: string, selected: map<string, string>) returns (prompt: string)
    ensures prompt == PromptText(subject, selected)
  {
    var parts: seq<string> := [];
    var s := Trim(subject);
    if s != "" {
      parts := parts + [s];
    }
    ghost var head := parts;
    parts := PushSelected(parts, ElementOrder, selected);
    PromptPartsOf(subject, selected, head, parts);
    if |parts| > 0 {
      parts := parts + [QualitySuffix];
    }
    prompt := Join(parts, PartSeparator);
  }

  /** The parts are the optional subject and the selected values, closed by the suffix when not empty. */
  lemma PromptPartsOf(subject: string, selected: map<string, string>, head: seq<string>, body: seq<string>)
    requires head == if Trim(subject) != "" then [Trim(subject)] else []
    requires body == head + SelectedValues(ElementOrder, selected)
    ensures PromptParts(subject, selected) == if |body| > 0 then body + [QualitySuffix] else body
  {
  }

  /** The `forEach` over the keys: each selected key's value is pushed, in key order. */
  method PushSelected(parts: seq<string>, keys: seq<string>, selected: map<string, string>) returns (r: seq<string>)
    ensures r == parts + SelectedValues(keys, selected)
  {
    r := parts;
    var i := 0;
    while i < |keys|
      invariant 0 <= i <= |keys|
      invariant r == parts + SelectedValues(keys[..i], selected)
    {
      var key := keys[i];
      SelectedValuesStep(keys, i, selected);
      if key in selected && selected[key] != "" {
        r := r + [selected[key]];
      }
      i := i + 1;
    }
    assert keys[..i] == keys;
  }

  /** One more key: its value, if selected, comes after the values of the keys before it. */
  lemma SelectedValuesStep(keys: seq<string>, i: nat, selected: map<string, string>)
    requires i < |keys|
    ensures SelectedValues(keys[..i + 1], selected) == SelectedValues(keys[..i], selected)
      + (if IsSelected(selected, keys[i]) then [selected[keys[i]]] else [])
  {
    assert keys[..i + 1][..i] == keys[..i];
  }

  /**
    `handleApply`: the generated prompt is handed to the prompt field (and the dialog closes)
    only when it is not empty; `None` means nothing happens.
   */
  method HandleApply(subject: string, selected: map<string, string>) returns (applied: Option<string>)
    ensures applied.Some? <==> PromptText(subject, selected) != ""
    ensures applied.Some? ==> applied.value == PromptText(subject, selected)
  {
    var prompt := GeneratePrompt(subject, selected);
    if prompt != "" {
      applied := Some(prompt);
    } else {
      applied := None;
    }
  }

  // ----- Templates -----

  /** The subject a template receives: the trimmed subject, or the placeholder when it is blank. */
  function TemplateSubject(subject: string): string {
    if Trim(subject) != "" then Trim(subject) else MissingSubject
  }

  /**
    `applyTemplate`, with the subject inserted verbatim: the first `{{subject}}` is replaced by
    the trimmed subject, or by the placeholder when the subject is blank.
   */
  function ApplyTemplate(template: string, subject: string): (prompt: string)
    ensures FindFirst(template, SubjectPlaceholder).None? ==> prompt == template
    ensures FindFirst(template, SubjectPlaceholder).Some? ==>
      var i := FindFirst(template, SubjectPlaceholder).value;
      prompt == template[..i] + TemplateSubject(subject) + template[i + |SubjectPlaceholder|..]
  {
    ReplaceFirst(template, SubjectPlaceholder, TemplateSubject(subject))
  }

  /**
    `applyTemplate` as written: JavaScript's `replace` expands `$&`, `` $` ``, `$'` and `$$` in
    the replacement, so a subject holding them is not inserted as typed.
   */
  function ApplyTemplateAsWritten(template: string, subject: string): (prompt: string)
    ensures FindFirst(template, SubjectPlaceholder).None? ==> prompt == template
    ensures FindFirst(template, SubjectPlaceholder).Some? ==>
      var i := FindFirst(template, SubjectPlaceholder).value;
      var before := template[..i];
      var after := template[i + |SubjectPlaceholder|..];
      prompt == before + Substitution(TemplateSubject(subject), SubjectPlaceholder, before, after) + after
  {
    ReplaceFirstJs(template, SubjectPlaceholder, TemplateSubject(subject))
  }

  /** The templates the builder offers; each begins with the subject placeholder. */
  const Templates: seq<string> := [
    SubjectPlaceholder + "을 보여주는 막대 차트, 맥킨지 스타일 파란색 그라데이션, 각 막대에 성장률 퍼센트 표시, Y축에 매출액, X축에 기간, 깔끔하고 전문적인 디자인, 흰색 배경",
    SubjectPlaceholder + "의 시장 점유율을 보여주는 도넛 차트, 각 세그먼트에 회사명과 퍼센트 표시, 가장 큰 점유율은 강조 색상, 우측에 범례, 전문적인 컨설팅 보고서 스타일",
    SubjectPlaceholder + " 프로세스를 보여주는 플로우차트, 왼쪽에서 오른쪽으로 흐름, 의사결정 분기점은 다이아몬드 모양, 각 단계에 아이콘과 설명, 화살표로 연결, 네이비-그레이 색상 체계",
    SubjectPlaceholder + " 분석을 위한 2x2 매트릭스, 각 사분면에 명확한 라벨과 설명, 축 레이블 포함, 각 영역에 해당 항목 배치, BCG 스타일 색상, 전략 컨설팅 프레젠테이션 품질",
    SubjectPlaceholder + "의 조직도, 위에서 아래로 계층 구조, 각 박스에 직책과 이름, 연결선으로 보고 체계 표시, 깔끔한 그리드 정렬, 전문적인 기업 스타일",
    SubjectPlaceholder + " 타임라인, 가로 방향으로 시간 흐름, 각 마일스톤에 날짜와 설명, 완료/진행중/예정 상태 색상 구분, 인포그래픽 스타일, 깔끔한 아이콘 사용"]

  /** Every offered template starts with the placeholder. */
  lemma TemplatesStartWithPlaceholder()
    ensures forall i :: 0 <= i < |Templates| ==> StartsWith(Templates[i], SubjectPlaceholder)
  {
  }

  /** A template that starts with the placeholder gets the subject at its very start. */
  lemma ApplyTemplateAtStart(template: string, subject: string)
    requires StartsWith(template, SubjectPlaceholder)
    ensures ApplyTemplate(template, subject) == TemplateSubject(subject) + template[|SubjectPlaceholder|..]
  {
    PlaceholderFoundAtStart(template);
    assert template[..0] + TemplateSubject(subject) == TemplateSubject(subject);
  }

  /**
    With a template that starts with the placeholder, a subject typed as `$&` makes the code as
    written return the template unchanged, `{{subject}}` included, where the subject should have
    been inserted as typed.
   */
  lemma DollarSubjectCounterexample(template: string)
    requires StartsWith(template, SubjectPlaceholder)
    ensures ApplyTemplateAsWritten(template, "$&") == template
    ensures ApplyTemplate(template, "$&") == "$&" + template[|SubjectPlaceholder|..]
    ensures ApplyTemplateAsWritten(template, "$&") != ApplyTemplate(template, "$&")
  {
    PlaceholderFoundAtStart(template);
    DollarSubjectKept();
    var after := template[|SubjectPlaceholder|..];
    assert Substitution("$&", SubjectPlaceholder, "", after) == SubjectPlaceholder;
    assert template == SubjectPlaceholder + after;
    assert ApplyTemplate(template, "$&")[0] == '$' != template[0];
  }

  lemma PlaceholderFoundAtStart(template: string)
    requires StartsWith(template, SubjectPlaceholder)
    ensures FindFirst(template, SubjectPlaceholder) == Some(0)
  {
    assert OccursAt(template, SubjectPlaceholder, 0);
  }

  lemma DollarSubjectKept()
    ensures TemplateSubject("$&") == "$&"
  {
    assert !IsSpace('$') && !IsSpace('&');
    assert TrimStart("$&") == "$&";
    assert TrimEnd("$&") == "$&";
  }

  /** For subjects without `$` the code as written and the verbatim insertion agree. */
  lemma ApplyTemplateAgrees(template: string, subject: string)
    requires forall i :: 0 <= i < |subject| ==> subject[i] != '$'
    ensures ApplyTemplateAsWritten(template, subject) == ApplyTemplate(template, subject)
  {
    TrimKeepsAbsent(subject, '$');
    MissingSubjectNoDollar();
    ReplaceAgreesWithoutDollar(template, SubjectPlaceholder, TemplateSubject(subject));
  }

  lemma MissingSubjectNoDollar()
    ensures forall i :: 0 <= i < |MissingSubject| ==> MissingSubject[i] != '$'
  {
  }
}
