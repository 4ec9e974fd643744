/** Plant-disease prediction in app.py: the fixed label vocabulary, the
    classifier's output width, and the `/predict` handler around the forward
    pass. The image decoding and the network itself are not modelled; the index
    of the winning output is an input. */
module Disease {
  import opened Http

  /** `disease_classes`, in the order the classifier's outputs are numbered. */
  const DiseaseClasses: seq<string> := [
    "Pepper__bell___Bacterial_spot", "Pepper__bell___healthy",
    "Potato___Early_blight", "Potato___healthy",
    "Potato___Late_blight", "Tomato_Target_Spot",
    "Tomato_Tomato_mosaic_virus", "Tomato_Tomato_YellowLeaf_Curl_Virus",
    "Tomato_Bacterial_spot", "Tomato_Early_blight",
    "Tomato_healthy", "Tomato_Late_blight",
    "Tomato_Leaf_Mold", "Tomato_Septoria_leaf_spot",
    "Tomato_Spider_mites_Two_spotted_spider_mite"
  ]

  /** The shape of the network: input channels and number of outputs. */
  datatype Classifier = Classifier(inChannels: nat, numClasses: nat)

  /** `ResNet9(3, len(disease_classes))`. */
  const DiseaseModel := Classifier(3, |DiseaseClasses|)

  /** An index the arg-max over the model's outputs can produce. */
  type ClassIndex = i: nat | i < DiseaseModel.numClasses

  /** No two labels are the same string, so a label names one output. */
  predicate DistinctLabels(labels: seq<string>) {
    forall i, j :: 0 <= i < |labels| && 0 <= j < |labels| && labels[i] == labels[j] ==> i == j
  }

  lemma DiseaseClassesDistinct()
    ensures |DiseaseClasses| == 15
    ensures DistinctLabels(DiseaseClasses)
  {
  }

  /** `disease_classes[i]`. */
  function LabelOf(i: nat): (tag: string)
    requires i < |DiseaseClasses|
    ensures tag in DiseaseClasses
    ensures forall j :: 0 <= j < |DiseaseClasses| && DiseaseClasses[j] == tag ==> j == i
  {
    DiseaseClassesDistinct();
    DiseaseClasses[i]
  }

  /** Every index the model can produce selects a label. */
  lemma EveryOutputHasALabel(i: ClassIndex)
    ensures i < |DiseaseClasses|
    ensures LabelOf(i) in DiseaseClasses
  {
  }

  /** The `/predict` handler. `files` is `request.files`; `classify` stands for
      decoding the upload, resizing it, the forward pass and `torch.max`, and
      yields the winning output's index. */
  function Predict(files: map<string, Upload>, classify: Upload -> ClassIndex): (r: Response)
    ensures "image" !in files <==> r == Plain("No file uploaded.", 400)
    ensures "image" in files ==>
              r.Page? && r.template == "disease-result.html" && r.value in DiseaseClasses
              && r.value == DiseaseClasses[classify(files["image"])]
  {
    if "image" !in files then Plain("No file uploaded.", 400)
    else
      var predicted := classify(files["image"]);
      Page("disease-result.html", LabelOf(predicted))
  }

  /** Without an `image` part the answer is status 400 and carries no label,
      whatever the classifier would have said. */
  lemma PredictWithoutImage(files: map<string, Upload>, classify: Upload -> ClassIndex)
    requires "image" !in files
    ensures Predict(files, classify).Plain?
    ensures Predict(files, classify).status == 400
    ensures Predict(files, classify).body !in DiseaseClasses
  {
  }
}
