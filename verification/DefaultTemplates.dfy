/** The template list of utils/pods-validator.py. */
module DefaultTemplates {
  import opened PodsValidator

  const DEFAULT_TEMPLATES: seq<string> := [
    "authservice-",
    "cluster-local-",
    "istio-citadel-",
    "istio-galley-",
    "istio-ingressgateway-",
    "istio-nodeagent-",
    "istio-pilot-",
    "istio-policy-",
    "istio-security-post-install-",
    "istio-sidecar-injector-",
    "istio-telemetry-",
    "kfserving-ingressgateway-",
    "prometheus-",
    "admission-webhook-deployment-",
    "application-controller-stateful-set-",
    "argo-ui-",
    "centraldashboard-",
    "jupyter-web-app-deployment-",
    "katib-controller-",
    "katib-db-manager-",
    "katib-mysql-",
    "katib-ui-",
    "kfserving-controller-manager-",
    "minio-",
    "ml-pipeline-ml-pipeline-visualizationserver-",
    "ml-pipeline-persistenceagent-",
    "ml-pipeline-scheduledworkflow-",
    "ml-pipeline-ui-",
    "ml-pipeline-viewer-controller-deployment-",
    "ml-pipeline-",
    "mysql-",
    "notebook-controller-deployment-",
    "profiles-deployment-",
    "pytorch-operator-",
    "seldon-controller-manager-",
    "spartakus-volunteer-",
    "tf-job-operator-",
    "workflow-controller-",
    "dex-"
  ]

  const FIRST_COLUMN := "aciiiiiiiiikpaaacjkkkkkmmmmmmmmnppsstwd"
  const SECOND_COLUMN := "ulsssssssssfrdpreuaaaafillllllyoryepfoe"

  lemma FirstColumn(i: nat)
    requires i < 39
    ensures |DEFAULT_TEMPLATES[i]| >= 2 && DEFAULT_TEMPLATES[i][0] == FIRST_COLUMN[i]
  {
  }

  lemma SecondColumn(i: nat)
    requires i < 39
    ensures |DEFAULT_TEMPLATES[i]| >= 2 && DEFAULT_TEMPLATES[i][1] == SECOND_COLUMN[i]
  {
  }

  lemma SameTwoLettersFirst(i: nat, j: nat)
    requires i < 2 && i < j < 39
    ensures FIRST_COLUMN[i] != FIRST_COLUMN[j] || SECOND_COLUMN[i] != SECOND_COLUMN[j]
  {
  }

  lemma SameTwoLettersIstio(i: nat, j: nat)
    requires 2 <= i <= 10 < j < 39
    ensures FIRST_COLUMN[i] == 'i' != FIRST_COLUMN[j]
  {
  }

  lemma SameTwoLettersEarly(i: nat, j: nat)
    requires 11 <= i < 18 && i < j < 39
    requires FIRST_COLUMN[i] == FIRST_COLUMN[j] && SECOND_COLUMN[i] == SECOND_COLUMN[j]
    ensures (i == 11 && j == 22) || (i == 12 && j == 32)
  {
  }

  lemma SameTwoLettersMiddle(i: nat, j: nat)
    requires 18 <= i < 24 && i < j < 39
    requires FIRST_COLUMN[i] == FIRST_COLUMN[j] && SECOND_COLUMN[i] == SECOND_COLUMN[j]
    ensures j <= 21
  {
  }

  lemma SameTwoLettersLate(i: nat, j: nat)
    requires 24 <= i < j < 39
    requires FIRST_COLUMN[i] == FIRST_COLUMN[j] && SECOND_COLUMN[i] == SECOND_COLUMN[j]
    ensures j <= 29
  {
  }

  /** The groups of templates that share their first two letters. */
  lemma SameTwoLetters(i: nat, j: nat)
    requires i < j < 39
    requires FIRST_COLUMN[i] == FIRST_COLUMN[j] && SECOND_COLUMN[i] == SECOND_COLUMN[j]
    ensures || 2 <= i < j <= 10
            || (i == 11 && j == 22)
            || (i == 12 && j == 32)
            || 18 <= i < j <= 21
            || 24 <= i < j <= 29
  {
    if i < 2 {
      SameTwoLettersFirst(i, j);
    } else if i <= 10 {
      if j > 10 {
        SameTwoLettersIstio(i, j);
      }
    } else if i < 18 {
      SameTwoLettersEarly(i, j);
    } else if i < 24 {
      SameTwoLettersMiddle(i, j);
    } else {
      SameTwoLettersLate(i, j);
    }
  }

  lemma IstioColumns(i: nat)
    requires 2 <= i <= 10
    ensures |DEFAULT_TEMPLATES[i]| >= 8
    ensures DEFAULT_TEMPLATES[i][6] == "cginppsst"[i - 2] && DEFAULT_TEMPLATES[i][7] == "ianoioeie"[i - 2]
  {
  }

  lemma KatibColumn(i: nat)
    requires 18 <= i <= 21
    ensures |DEFAULT_TEMPLATES[i]| >= 7 && DEFAULT_TEMPLATES[i][6] == "cdmu"[i - 18]
  {
  }

  lemma PipelineColumn(i: nat)
    requires 24 <= i <= 29
    ensures if i == 29 then |DEFAULT_TEMPLATES[i]| == 12
            else |DEFAULT_TEMPLATES[i]| >= 13 && DEFAULT_TEMPLATES[i][12] == "mpsuv"[i - 24]
  {
  }

  lemma DifferentColumn(t: string, u: string, k: nat)
    requires k < |t| && k < |u| && t[k] != u[k]
    ensures !(t <= u)
  {
  }

  lemma NotAPrefix(i: nat, j: nat)
    requires i < j < 39
    ensures !(DEFAULT_TEMPLATES[i] <= DEFAULT_TEMPLATES[j])
  {
    var t, u := DEFAULT_TEMPLATES[i], DEFAULT_TEMPLATES[j];
    FirstColumn(i);
    FirstColumn(j);
    SecondColumn(i);
    SecondColumn(j);
    if t[0] != u[0] {
      DifferentColumn(t, u, 0);
    } else if t[1] != u[1] {
      DifferentColumn(t, u, 1);
    } else {
      SameTwoLetters(i, j);
      SameGroup(i, j);
    }
  }

  lemma SameGroup(i: nat, j: nat)
    requires || 2 <= i < j <= 10
             || (i == 11 && j == 22)
             || (i == 12 && j == 32)
             || 18 <= i < j <= 21
             || 24 <= i < j <= 29
    ensures !(DEFAULT_TEMPLATES[i] <= DEFAULT_TEMPLATES[j])
  {
    if 2 <= i <= 10 {
      IstioPair(i, j);
    } else if i == 11 {
      DifferentColumn(DEFAULT_TEMPLATES[11], DEFAULT_TEMPLATES[22], 10);
    } else if i == 12 {
      DifferentColumn(DEFAULT_TEMPLATES[12], DEFAULT_TEMPLATES[32], 3);
    } else if i <= 21 {
      KatibPair(i, j);
    } else {
      PipelinePair(i, j);
    }
  }

  lemma IstioPair(i: nat, j: nat)
    requires 2 <= i < j <= 10
    ensures !(DEFAULT_TEMPLATES[i] <= DEFAULT_TEMPLATES[j])
  {
    var t, u := DEFAULT_TEMPLATES[i], DEFAULT_TEMPLATES[j];
    IstioColumns(i);
    IstioColumns(j);
    DifferentColumn(t, u, if t[6] != u[6] then 6 else 7);
  }

  lemma KatibPair(i: nat, j: nat)
    requires 18 <= i < j <= 21
    ensures !(DEFAULT_TEMPLATES[i] <= DEFAULT_TEMPLATES[j])
  {
    KatibColumn(i);
    KatibColumn(j);
    DifferentColumn(DEFAULT_TEMPLATES[i], DEFAULT_TEMPLATES[j], 6);
  }

  /** `ml-pipeline-` comes last in its group because it is a prefix of all the others. */
  lemma PipelinePair(i: nat, j: nat)
    requires 24 <= i < j <= 29
    ensures !(DEFAULT_TEMPLATES[i] <= DEFAULT_TEMPLATES[j])
  {
    PipelineColumn(i);
    PipelineColumn(j);
    if j < 29 {
      DifferentColumn(DEFAULT_TEMPLATES[i], DEFAULT_TEMPLATES[j], 12);
    }
  }

  /** The script's own list has no duplicates and is specific-first. */
  lemma DefaultTemplatesSpecificFirst()
    ensures SpecificFirst(DEFAULT_TEMPLATES) && |DEFAULT_TEMPLATES| == 39
    ensures forall i, j :: 0 <= i < j < 39 ==> DEFAULT_TEMPLATES[i] != DEFAULT_TEMPLATES[j]
  {
    assert |DEFAULT_TEMPLATES| == 39;
    forall i, j | 0 <= i < j < 39
      ensures !(DEFAULT_TEMPLATES[i] <= DEFAULT_TEMPLATES[j])
      ensures DEFAULT_TEMPLATES[i] != DEFAULT_TEMPLATES[j]
    {
      NotAPrefix(i, j);
    }
  }

  /** For the script's own list, crashes included, status zero means that all 39 templates are servable. */
  lemma SuccessMeansAllServed(pods: seq<Pod>)
    ensures Status(OutcomeOf(DEFAULT_TEMPLATES, pods)) == 0 <==> AllServable(DEFAULT_TEMPLATES, pods)
  {
    DefaultTemplatesSpecificFirst();
    StatusIs(DEFAULT_TEMPLATES, pods);
  }

  /** The whole script: the three namespaces in turn, crossed off its own list. */
  method Run(istioSystem: seq<Pod>, kubeflow: seq<Pod>, auth: seq<Pod>) returns (status: nat)
    ensures StatusFor(DEFAULT_TEMPLATES, istioSystem + kubeflow + auth, status)
    ensures status == 0 <==> AllServable(DEFAULT_TEMPLATES, istioSystem + kubeflow + auth)
  {
    DefaultTemplatesSpecificFirst();
    status := RunWith(DEFAULT_TEMPLATES, istioSystem, kubeflow, auth);
  }
}
