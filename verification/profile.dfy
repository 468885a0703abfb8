/**
 * The user-profile formatter: a fixed list of profile fields, rendered one
 * `label: value` line each, in a fixed order, skipping absent and null fields, with
 * the sex code spelled out.
 */
module Profile {
  import opened Wrappers
  import opened Text

  /** The user record from the profile service; `None` stands for a JSON null. */
  type UserData = map<string, Option<string>>

  /** (field, label) pairs, in rendering order. */
  const Fields: seq<(string, string)> :=
    [("name", "姓名"), ("nj", "年级"), ("bj", "班级"), ("addressCode", "地址"), ("sex", "性别"), ("schoolName", "学校名称")]

  const SexNames: map<string, string> := map["1" := "男", "2" := "女", "0" := "未知"]

  /** The value as shown: sex codes '1', '2', '0' become 男, 女, 未知; everything else is kept. */
  function DisplayValue(field: string, v: string): (r: string)
    ensures r != v ==> field == "sex" && v in {"1", "2", "0"}
    ensures field == "sex" && v in {"1", "2", "0"} ==> r in {"男", "女", "未知"}
  {
    if field == "sex" && v in SexNames then SexNames[v] else v
  }

  /** The field is in the record with a non-null value. */
  predicate Present(data: UserData, field: string) {
    field in data && data[field].Some?
  }

  /** The entries of `fields` that `data` holds, in order. */
  function PresentFields(data: UserData, fields: seq<(string, string)>): (r: seq<(string, string)>)
    ensures forall f :: f in r <==> f in fields && Present(data, f.0)
  {
    if |fields| == 0 then []
    else (if Present(data, fields[0].0) then [fields[0]] else []) + PresentFields(data, fields[1..])
  }

  function FieldLine(data: UserData, f: (string, string)): string
    requires Present(data, f.0)
  {
    f.1 + ": " + DisplayValue(f.0, data[f.0].value)
  }

  /** One line per present field, in the order of `fields`. */
  function ProfileLines(data: UserData, fields: seq<(string, string)>): seq<string>
  {
    if |fields| == 0 then []
    else (if Present(data, fields[0].0) then [FieldLine(data, fields[0])] else []) + ProfileLines(data, fields[1..])
  }

  /** The k-th line is the line of the k-th present field. */
  predicate Follows(data: UserData, lines: seq<string>, ps: seq<(string, string)>) {
    |lines| == |ps| && forall k :: 0 <= k < |lines| ==> Present(data, ps[k].0) && lines[k] == FieldLine(data, ps[k])
  }

  lemma FollowsCons(data: UserData, f: (string, string), lines: seq<string>, ps: seq<(string, string)>)
    requires Present(data, f.0) && Follows(data, lines, ps)
    ensures Follows(data, [FieldLine(data, f)] + lines, [f] + ps)
  {
    var lines', ps' := [FieldLine(data, f)] + lines, [f] + ps;
    forall k | 1 <= k < |lines'| ensures Present(data, ps'[k].0) && lines'[k] == FieldLine(data, ps'[k]) {
      assert lines'[k] == lines[k - 1] && ps'[k] == ps[k - 1];
    }
  }

  /** The lines are those of the present fields, in the order of `fields`. */
  lemma {:induction false} ProfileLinesFollowFields(data: UserData, fields: seq<(string, string)>)
    ensures Follows(data, ProfileLines(data, fields), PresentFields(data, fields))
  {
    if |fields| > 0 {
      ProfileLinesFollowFields(data, fields[1..]);
      var rest, ps := ProfileLines(data, fields[1..]), PresentFields(data, fields[1..]);
      if Present(data, fields[0].0) {
        assert PresentFields(data, fields) == [fields[0]] + ps;
        assert ProfileLines(data, fields) == [FieldLine(data, fields[0])] + rest;
        FollowsCons(data, fields[0], rest, ps);
      } else {
        assert PresentFields(data, fields) == ps;
        assert ProfileLines(data, fields) == rest;
      }
    }
  }

  /** `parse_user_info`. */
  function ParseUserInfo(data: UserData): string
  {
    Join(ProfileLines(data, Fields), "\n")
  }

  /** The profile text is empty exactly when none of the six fields is present and non-null. */
  lemma ProfileEmptyIff(data: UserData)
    ensures ParseUserInfo(data) == [] <==> forall f :: f in Fields ==> !Present(data, f.0)
  {
    JoinedLinesEmptyIff(data, Fields);
  }

  /** The joined lines of any field list are empty exactly when none of its fields is present. */
  lemma JoinedLinesEmptyIff(data: UserData, fields: seq<(string, string)>)
    ensures Join(ProfileLines(data, fields), "\n") == [] <==> forall f :: f in fields ==> !Present(data, f.0)
  {
    var lines := ProfileLines(data, fields);
    var ps := PresentFields(data, fields);
    ProfileLinesFollowFields(data, fields);
    JoinEmptyIff(lines, "\n");
    if |lines| > 0 {
      assert ps[0] in ps;
      assert |lines[0]| >= 2;
    }
    if exists f :: f in fields && Present(data, f.0) {
      var f :| f in fields && Present(data, f.0);
      assert f in ps;
    }
  }

  /** Keys other than the six fields, and values of absent fields, do not affect the text. */
  lemma {:induction false} ProfileDependsOnlyOnFields(a: UserData, b: UserData, fields: seq<(string, string)>)
    requires forall f :: f in fields ==> Present(a, f.0) == Present(b, f.0)
    requires forall f :: f in fields && Present(a, f.0) && Present(b, f.0) ==> a[f.0] == b[f.0]
    ensures ProfileLines(a, fields) == ProfileLines(b, fields)
  {
    if |fields| > 0 {
      assert fields[0] in fields;
      ProfileDependsOnlyOnFields(a, b, fields[1..]);
    }
  }

  /** Every present field of `fields` has its line. */
  lemma FieldLineListed(data: UserData, fields: seq<(string, string)>, f: (string, string))
    requires f in fields && Present(data, f.0)
    ensures FieldLine(data, f) in ProfileLines(data, fields)
  {
    var ps := PresentFields(data, fields);
    ProfileLinesFollowFields(data, fields);
    assert f in ps;
    var k :| 0 <= k < |ps| && ps[k] == f;
    assert ProfileLines(data, fields)[k] == FieldLine(data, f);
  }

  /** The sex line, when present, shows the spelled-out code. */
  lemma SexLineSpelledOut(data: UserData)
    requires Present(data, "sex") && data["sex"].value in SexNames
    ensures ("性别: " + SexNames[data["sex"].value]) in ProfileLines(data, Fields)
  {
    var sex := ("sex", "性别");
    var fields := Fields;
    assert sex == fields[4];
    assert FieldLine(data, sex) == "性别: " + SexNames[data["sex"].value];
    FieldLineListed(data, fields, sex);
  }
}
