/** The labels of a pod. They are written into the label map of the workload itself, which the
    workload shares with the message it came in. */
module Labels {
  import opened Paths

  const WORKLOADS_DIR := "/var/local/yggdrasil/device/workloads"

  const AUTOUPDATE := "io.containers.autoupdate"

  const AUTH_FILE_LABEL := "io.containers.autoupdate.authfile"

  const UNIT_LABEL := "PODMAN_SYSTEMD_UNIT"

  function AuthFilePath(name: string): string
  {
    WORKLOADS_DIR + "/" + Dir(name) + "/auth.json"
  }

  function UnitName(name: string): string
  {
    name + ".service"
  }

  predicate Contains(s: string, part: string)
  {
    part <= s || (s != "" && Contains(s[1..], part))
  }

  predicate AutoUpdates(labels: map<string, string>)
  {
    exists key :: key in labels && Contains(key, AUTOUPDATE)
  }

  function WithAuthFile(labels: map<string, string>, name: string, authFile: string): map<string, string>
  {
    if authFile == "" then labels else labels[AUTH_FILE_LABEL := AuthFilePath(name)]
  }

  function WithUnit(labels: map<string, string>, name: string): map<string, string>
  {
    if AutoUpdates(labels) then labels[UNIT_LABEL := UnitName(name)] else labels
  }

  /** The labels of the pod of a workload. */
  function PodLabels(labels: map<string, string>, name: string, authFile: string): map<string, string>
  {
    WithUnit(WithAuthFile(labels, name, authFile), name)
  }

  predicate Has(labels: map<string, string>, key: string, value: string)
  {
    key in labels && labels[key] == value
  }

  /** An auth file or automatic updates are asked for, and a label they need is not there yet. */
  predicate Lacks(labels: map<string, string>, name: string, authFile: string)
  {
    || (authFile != "" && !Has(labels, AUTH_FILE_LABEL, AuthFilePath(name)))
    || ((authFile != "" || AutoUpdates(labels)) && !Has(labels, UNIT_LABEL, UnitName(name)))
  }

  lemma AuthFileAutoUpdates(labels: map<string, string>)
    requires AUTH_FILE_LABEL in labels
    ensures AutoUpdates(labels)
  {
    assert AUTOUPDATE <= AUTH_FILE_LABEL;
    assert Contains(AUTH_FILE_LABEL, AUTOUPDATE);
  }

  lemma {:induction false} ContainsFinds(s: string, part: string) returns (before: string, after: string)
    requires Contains(s, part)
    ensures s == before + part + after
  {
    if part <= s {
      before, after := [], s[|part|..];
    } else {
      before, after := ContainsFinds(s[1..], part);
      before := [s[0]] + before;
    }
  }

  lemma {:induction false} FoundIsContained(before: string, part: string, after: string)
    ensures Contains(before + part + after, part)
  {
    if before == [] {
      assert (before + part + after)[..|part|] == part;
    } else {
      FoundIsContained(before[1..], part, after);
      assert (before + part + after)[1..] == before[1..] + part + after;
    }
  }

  /** Contains looks for the part anywhere. */
  lemma ContainsMeans(s: string, part: string)
    ensures Contains(s, part) <==> exists before, after :: s == before + part + after
  {
    hide Contains;
    if Contains(s, part) {
      var before, after := ContainsFinds(s, part);
    }
    if before, after :| s == before + part + after {
      FoundIsContained(before, part, after);
    }
  }

  /** The labels of a pod: the auth file label names the stored auth file, the unit label the service,
      and all others are those of the workload. */
  lemma PodLabelsAre(labels: map<string, string>, name: string, authFile: string)
    ensures var all := PodLabels(labels, name, authFile);
            && (authFile != "" ==>
                  && "io.containers.autoupdate.authfile" in all
                  && all["io.containers.autoupdate.authfile"] ==
                     "/var/local/yggdrasil/device/workloads/" + Dir(name) + "/auth.json")
            && (authFile != "" || AutoUpdates(labels) ==>
                  "PODMAN_SYSTEMD_UNIT" in all && all["PODMAN_SYSTEMD_UNIT"] == name + ".service")
            && forall key ::
                 (key == "io.containers.autoupdate.authfile" ==> authFile == "") &&
                 (key == "PODMAN_SYSTEMD_UNIT" ==> authFile == "" && !AutoUpdates(labels)) ==>
                 (key in all <==> key in labels) && (key in labels ==> all[key] == labels[key])
  {
    hide AutoUpdates, Contains;
    LabelsDiffer();
    if authFile != "" {
      AuthFileAutoUpdates(WithAuthFile(labels, name, authFile));
    }
    assert WORKLOADS_DIR + "/" + Dir(name) + "/auth.json" ==
           "/var/local/yggdrasil/device/workloads/" + Dir(name) + "/auth.json";
  }

  lemma AutoUpdateAloneLacks(value: string, name: string)
    ensures Lacks(map[AUTOUPDATE := value], name, "")
  {
    hide UnitName;
    var labels := map[AUTOUPDATE := value];
    assert AUTOUPDATE in labels && Contains(AUTOUPDATE, AUTOUPDATE);
    assert UNIT_LABEL !in labels by {
      assert |AUTOUPDATE| != |UNIT_LABEL|;
    }
  }

  lemma LabelsDiffer()
    ensures AUTH_FILE_LABEL != UNIT_LABEL
  {
    assert |AUTH_FILE_LABEL| != |UNIT_LABEL|;
  }

  lemma AddingUnitKeeps(labels: map<string, string>, name: string)
    ensures AutoUpdates(WithUnit(labels, name)) || WithUnit(labels, name) == labels
    ensures AutoUpdates(labels) ==> Has(WithUnit(labels, name), UNIT_LABEL, UnitName(name))
    ensures !AutoUpdates(labels) ==> !AutoUpdates(WithUnit(labels, name))
    ensures WithUnit(labels, name) == labels <==> AutoUpdates(labels) ==> Has(labels, UNIT_LABEL, UnitName(name))
  {
    hide Contains, UnitName;
    if AutoUpdates(labels) {
      var key :| key in labels && Contains(key, AUTOUPDATE);
      assert key in WithUnit(labels, name);
    }
  }

  lemma AddingAuthKeeps(labels: map<string, string>, name: string, authFile: string)
    ensures var auth := WithAuthFile(labels, name, authFile);
            && (authFile != "" ==> AutoUpdates(auth) && Has(auth, AUTH_FILE_LABEL, AuthFilePath(name)))
            && (auth == labels <==> authFile != "" ==> Has(labels, AUTH_FILE_LABEL, AuthFilePath(name)))
            && (authFile == "" ==> auth == labels)
            && (Has(auth, UNIT_LABEL, UnitName(name)) <==> Has(labels, UNIT_LABEL, UnitName(name)))
            && (Has(WithUnit(auth, name), AUTH_FILE_LABEL, AuthFilePath(name)) <==>
                Has(auth, AUTH_FILE_LABEL, AuthFilePath(name)))
  {
    hide Contains, UnitName, AuthFilePath;
    LabelsDiffer();
    if authFile != "" {
      AuthFileAutoUpdates(WithAuthFile(labels, name, authFile));
    }
  }

  /** Labels are added exactly when one is lacking, and then none is. */
  lemma PodLabelsAddExactly(labels: map<string, string>, name: string, authFile: string)
    ensures PodLabels(labels, name, authFile) != labels <==> Lacks(labels, name, authFile)
    ensures !Lacks(PodLabels(labels, name, authFile), name, authFile)
  {
    hide AutoUpdates, UnitName, AuthFilePath, WithUnit, WithAuthFile, Has;
    var auth := WithAuthFile(labels, name, authFile);
    AddingAuthKeeps(labels, name, authFile);
    AddingUnitKeeps(auth, name);
    if PodLabels(labels, name, authFile) == labels && auth != labels {
      UnitIsNotAuth(labels, name, authFile);
    }
  }

  lemma UnitIsNotAuth(labels: map<string, string>, name: string, authFile: string)
    requires WithUnit(WithAuthFile(labels, name, authFile), name) == labels
    ensures WithAuthFile(labels, name, authFile) == labels
  {
    hide AutoUpdates, UnitName, AuthFilePath;
    LabelsDiffer();
    assert authFile != "" ==> Has(labels, AUTH_FILE_LABEL, AuthFilePath(name));
  }

  /** Adds the labels, looking at every label of the workload in some order. */
  method AddPodLabels(labels: map<string, string>, name: string, authFile: string)
    returns (written: map<string, string>)
    ensures written == PodLabels(labels, name, authFile)
  {
    written := labels;
    if authFile != "" {
      written := written[AUTH_FILE_LABEL := AuthFilePath(name)];
    }
    ghost var auth := written;
    var left := written.Keys;
    ghost var updates := false;
    while left != {}
      invariant left <= auth.Keys
      invariant updates <==> exists key :: key in auth && key !in left && Contains(key, AUTOUPDATE)
      invariant written == if updates then auth[UNIT_LABEL := UnitName(name)] else auth
      decreases left
    {
      var key :| key in left;
      if Contains(key, AUTOUPDATE) {
        written := written[UNIT_LABEL := UnitName(name)];
        updates := true;
      }
      left := left - {key};
    }
  }
}
