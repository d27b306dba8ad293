/**
 * Program introspection of common/shader-util.js: createUniformSetters and
 * createAttributeSetters walk the active uniforms and attributes a linked
 * program reports and build a map from name to setter.
 */
module Introspection {
  import opened Wrappers
  import opened JsValues
  import opened Setters

  /**
   * The object a loop builds by `obj[key] = value` for each entry in turn:
   * a later entry with the same key replaces an earlier one.
   */
  function Fill<V>(entries: seq<(string, V)>): map<string, V>
    decreases |entries|
  {
    if entries == [] then map[]
    else Fill(entries[..|entries| - 1])[entries[|entries| - 1].0 := entries[|entries| - 1].1]
  }

  /** One more entry is one more assignment. */
  lemma FillPush<V>(entries: seq<(string, V)>, key: string, value: V)
    ensures Fill(entries + [(key, value)]) == Fill(entries)[key := value]
  {
    assert (entries + [(key, value)])[..|entries|] == entries;
  }

  /** The keys of the object are exactly the keys of the entries. */
  lemma {:induction false} FillKeys<V>(entries: seq<(string, V)>)
    ensures forall key :: key in Fill(entries) <==> exists j :: 0 <= j < |entries| && entries[j].0 == key
    decreases |entries|
  {
    if entries != [] {
      var front := entries[..|entries| - 1];
      FillKeys(front);
      forall key
        ensures key in Fill(entries) <==> exists j :: 0 <= j < |entries| && entries[j].0 == key
      {
        if exists j :: 0 <= j < |entries| && entries[j].0 == key {
          var j :| 0 <= j < |entries| && entries[j].0 == key;
          if j < |front| {
            assert front[j] == entries[j];
          }
        }
        if key in Fill(front) {
          var j :| 0 <= j < |front| && front[j].0 == key;
          assert entries[j] == front[j];
        }
      }
    }
  }

  /** An entry whose key no later entry repeats is the one the object holds. */
  lemma {:induction false} FillLastWins<V>(entries: seq<(string, V)>, j: nat)
    requires j < |entries|
    requires forall i :: j < i < |entries| ==> entries[i].0 != entries[j].0
    ensures entries[j].0 in Fill(entries) && Fill(entries)[entries[j].0] == entries[j].1
    decreases |entries|
  {
    var front := entries[..|entries| - 1];
    if j < |front| {
      assert front[j] == entries[j];
      forall i | j < i < |front|
        ensures front[i].0 != front[j].0
      {
        assert front[i] == entries[i];
      }
      FillLastWins(front, j);
    }
  }

  /** When every entry's value is a function of its key, so is every value the object holds. */
  lemma {:induction false} FillByKey<V>(entries: seq<(string, V)>, f: string -> V)
    requires forall j :: 0 <= j < |entries| ==> entries[j].1 == f(entries[j].0)
    ensures forall key :: key in Fill(entries) ==> Fill(entries)[key] == f(key)
    decreases |entries|
  {
    if entries != [] {
      var front := entries[..|entries| - 1];
      forall j | 0 <= j < |front|
        ensures front[j].1 == f(front[j].0)
      {
        assert front[j] == entries[j];
      }
      FillByKey(front, f);
    }
  }

  /**
   * The infos a loop `for (i = 0; i < count; i++)` reads before it stops at
   * the count or at the first index whose query returns null.
   */
  function ActivePrefix(infos: seq<Option<ActiveInfo>>, count: int): seq<ActiveInfo>
    decreases |infos|
  {
    if count <= 0 || infos == [] || infos[0].None? then []
    else [infos[0].value] + ActivePrefix(infos[1..], count - 1)
  }

  /**
   * The prefix holds the non-null infos at indices 0, 1, ... in order, at most
   * `count` of them, and when it is shorter than `count` the query at the
   * next index returns null.
   */
  lemma {:induction false} ActivePrefixSpec(infos: seq<Option<ActiveInfo>>, count: int)
    ensures |ActivePrefix(infos, count)| <= |infos|
    ensures |ActivePrefix(infos, count)| <= (if count > 0 then count else 0)
    ensures forall j :: 0 <= j < |ActivePrefix(infos, count)| ==>
      infos[j] == Some(ActivePrefix(infos, count)[j])
    ensures |ActivePrefix(infos, count)| < count ==>
      ActiveAt(infos, |ActivePrefix(infos, count)|).None?
    decreases |infos|
  {
    if !(count <= 0 || infos == [] || infos[0].None?) {
      var rest := ActivePrefix(infos[1..], count - 1);
      ActivePrefixSpec(infos[1..], count - 1);
      var p := ActivePrefix(infos, count);
      assert p == [infos[0].value] + rest;
      forall j | 0 <= j < |p|
        ensures infos[j] == Some(p[j])
      {
        if j > 0 {
          assert infos[j] == infos[1..][j - 1];
        }
      }
      if |rest| < |infos| - 1 {
        assert ActiveAt(infos, |p|) == ActiveAt(infos[1..], |rest|);
      }
    }
  }

  /** When every index below the count answers, all `count` of them are read. */
  lemma ActivePrefixComplete(infos: seq<Option<ActiveInfo>>, count: int)
    requires forall i: nat :: i < count ==> ActiveAt(infos, i).Some?
    ensures |ActivePrefix(infos, count)| == if count > 0 then count else 0
  {
    ActivePrefixSpec(infos, count);
  }

  // ---------------------------------------------------------------------------
  // Uniforms
  // ---------------------------------------------------------------------------

  /** The uniforms createUniformSetters reads. */
  function ReportedUniforms(report: ProgramReport): seq<ActiveInfo>
  {
    ActivePrefix(report.uniforms, report.uniformCount)
  }

  /** One (key, setter) entry per uniform read, in order. */
  function UniformEntries(report: ProgramReport, infos: seq<ActiveInfo>): (es: seq<(string, UniformSetter)>)
    ensures |es| == |infos|
    ensures forall j :: 0 <= j < |infos| ==>
      es[j] == (StripArraySuffix(infos[j].name), CreateUniformSetter(report, infos[j]))
  {
    seq(|infos|, j requires 0 <= j < |infos| =>
      (StripArraySuffix(infos[j].name), CreateUniformSetter(report, infos[j])))
  }

  /** The entries of one more uniform. */
  lemma UniformEntriesPush(report: ProgramReport, infos: seq<ActiveInfo>, i: nat)
    requires i < |infos|
    ensures UniformEntries(report, infos[..i + 1]) == UniformEntries(report, infos[..i])
      + [(StripArraySuffix(infos[i].name), CreateUniformSetter(report, infos[i]))]
  {
    var es := UniformEntries(report, infos[..i + 1]);
    assert es[..i] == UniformEntries(report, infos[..i]);
    assert es == es[..i] + [es[i]];
  }

  /** The object createUniformSetters returns. */
  function UniformSettersOf(report: ProgramReport): map<string, UniformSetter>
  {
    Fill(UniformEntries(report, ReportedUniforms(report)))
  }

  /**
   * createUniformSetters (common/shader-util.js:240-255): stops at the count
   * or at the first null info, and stores each setter under the name with
   * its "[0]" suffix stripped.
   */
  method CreateUniformSetters(report: ProgramReport) returns (setters: map<string, UniformSetter>)
    ensures setters == UniformSettersOf(report)
    ensures forall key :: key in setters <==>
      exists j :: 0 <= j < |ReportedUniforms(report)| && StripArraySuffix(ReportedUniforms(report)[j].name) == key
  {
    ghost var reported := ReportedUniforms(report);
    ActivePrefixSpec(report.uniforms, report.uniformCount);
    setters := map[];
    var i := 0;
    while i < report.uniformCount
      invariant 0 <= i <= |reported|
      invariant setters == Fill(UniformEntries(report, reported[..i]))
    {
      var info := ActiveAt(report.uniforms, i);
      if info.None? {
        assert i == |reported|;
        break;
      }
      var name := StripArraySuffix(info.value.name);
      assert info.value == reported[i];
      UniformEntriesPush(report, reported, i);
      FillPush(UniformEntries(report, reported[..i]), name, CreateUniformSetter(report, info.value));
      setters := setters[name := CreateUniformSetter(report, info.value)];
      i := i + 1;
    }
    assert reported[..i] == reported;
    FillKeys(UniformEntries(report, reported));
  }

  /**
   * A uniform whose key no later uniform repeats keeps its own setter; two
   * uniforms with the same key (`a` and `a[0]`) leave the later one's.
   */
  lemma UniformSettersLastWins(report: ProgramReport, j: nat)
    requires j < |ReportedUniforms(report)|
    requires forall i :: j < i < |ReportedUniforms(report)| ==>
      StripArraySuffix(ReportedUniforms(report)[i].name) != StripArraySuffix(ReportedUniforms(report)[j].name)
    ensures var info := ReportedUniforms(report)[j];
      StripArraySuffix(info.name) in UniformSettersOf(report) &&
      UniformSettersOf(report)[StripArraySuffix(info.name)] == CreateUniformSetter(report, info)
  {
    FillLastWins(UniformEntries(report, ReportedUniforms(report)), j);
  }

  // ---------------------------------------------------------------------------
  // Attributes
  // ---------------------------------------------------------------------------

  /** The attributes createAttributeSetters reads when none of their queries returns null. */
  function ReportedAttributes(report: ProgramReport): seq<ActiveInfo>
  {
    ActivePrefix(report.attributes, report.attributeCount)
  }

  /** One (name, setter) entry per attribute, the setter holding its location. */
  function AttributeEntries(report: ProgramReport, infos: seq<ActiveInfo>): (es: seq<(string, AttributeSetter)>)
    ensures |es| == |infos|
    ensures forall j :: 0 <= j < |infos| ==>
      es[j] == (infos[j].name, AttributeSetter(report.attribLocation(infos[j].name)))
  {
    seq(|infos|, j requires 0 <= j < |infos| =>
      (infos[j].name, AttributeSetter(report.attribLocation(infos[j].name))))
  }

  /** The entries of one more attribute. */
  lemma AttributeEntriesPush(report: ProgramReport, infos: seq<ActiveInfo>, i: nat)
    requires i < |infos|
    ensures AttributeEntries(report, infos[..i + 1]) == AttributeEntries(report, infos[..i])
      + [(infos[i].name, AttributeSetter(report.attribLocation(infos[i].name)))]
  {
    var es := AttributeEntries(report, infos[..i + 1]);
    assert es[..i] == AttributeEntries(report, infos[..i]);
    assert es == es[..i] + [es[i]];
  }

  /** The object createAttributeSetters returns when it returns. */
  function AttributeSettersOf(report: ProgramReport): map<string, AttributeSetter>
  {
    Fill(AttributeEntries(report, ReportedAttributes(report)))
  }

  /**
   * The object holds exactly the reported attribute names, each with the
   * setter of the location looked up by that name.
   */
  lemma AttributeSettersByName(report: ProgramReport)
    ensures forall name :: name in AttributeSettersOf(report) <==>
      exists j :: 0 <= j < |ReportedAttributes(report)| && ReportedAttributes(report)[j].name == name
    ensures forall name :: name in AttributeSettersOf(report) ==>
      AttributeSettersOf(report)[name] == AttributeSetter(report.attribLocation(name))
  {
    var es := AttributeEntries(report, ReportedAttributes(report));
    FillKeys(es);
    FillByKey(es, name => AttributeSetter(report.attribLocation(name)));
  }

  /** True when every attribute index below the count answers with an info. */
  predicate AllAttributesReported(report: ProgramReport)
  {
    forall i: nat :: i < report.attributeCount ==> ActiveAt(report.attributes, i).Some?
  }

  /**
   * createAttributeSetters (common/shader-util.js:277-289): the loop has no
   * null check, so a null info makes `attributeInfo.name` throw a TypeError.
   */
  method CreateAttributeSetters(report: ProgramReport) returns (r: Result<map<string, AttributeSetter>, Exception>)
    ensures r.Success? <==> AllAttributesReported(report)
    ensures r.Failure? ==> r.error == TypeError
    ensures r.Success? ==> r.value == AttributeSettersOf(report)
    ensures r.Success? ==>
      |ReportedAttributes(report)| == (if report.attributeCount > 0 then report.attributeCount else 0)
    ensures r.Success? ==> forall name :: name in r.value <==>
      exists j :: 0 <= j < |ReportedAttributes(report)| && ReportedAttributes(report)[j].name == name
    ensures r.Success? ==> forall name :: name in r.value ==>
      r.value[name] == AttributeSetter(report.attribLocation(name))
  {
    ghost var reported := ReportedAttributes(report);
    ActivePrefixSpec(report.attributes, report.attributeCount);
    var setters := map[];
    var i := 0;
    while i < report.attributeCount
      invariant 0 <= i <= |reported|
      invariant forall j: nat :: j < i ==> ActiveAt(report.attributes, j).Some?
      invariant setters == Fill(AttributeEntries(report, reported[..i]))
    {
      var info := ActiveAt(report.attributes, i);
      if info.None? {
        return Failure(TypeError);
      }
      var index := report.attribLocation(info.value.name);
      assert info.value == reported[i];
      AttributeEntriesPush(report, reported, i);
      FillPush(AttributeEntries(report, reported[..i]), info.value.name, AttributeSetter(index));
      setters := setters[info.value.name := AttributeSetter(index)];
      i := i + 1;
    }
    assert reported[..i] == reported;
    AttributeSettersByName(report);
    return Success(setters);
  }
}
