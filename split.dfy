/** The maxitrain/minival split of the COCO 2014 annotations: every train
    record goes to maxitrain, and every val record goes to minival when its
    image id is one of the held-out ids and to maxitrain otherwise. */
module MinivalSplit {
  import opened Coco
  import opened Partition

  /** What a correct split is, stated without reference to how it is computed:
      both outputs carry the train file's info, licenses and categories; the
      train images and annotations open maxitrain unchanged and in order; and
      what follows them in maxitrain, together with minival, is a correct
      routing of the val images (by `id`) and of the val annotations (by their
      own `image_id`). */
  ghost predicate IsMaxitrainMinival<J>(
    train: AnnotationSet<J>, val: AnnotationSet<J>, minivalIds: seq<int>,
    maxitrain: AnnotationSet<J>, minival: AnnotationSet<J>)
  {
    && maxitrain.info == train.info && minival.info == train.info
    && maxitrain.licenses == train.licenses && minival.licenses == train.licenses
    && maxitrain.categories == train.categories && minival.categories == train.categories
    && train.images <= maxitrain.images
    && train.annotations <= maxitrain.annotations
    && Partitions(val.images, ImageId, minivalIds,
                  minival.images, maxitrain.images[|train.images|..])
    && Partitions(val.annotations, AnnotationImageId, minivalIds,
                  minival.annotations, maxitrain.annotations[|train.annotations|..])
  }

  /** Builds the two bundles from the decoded train and val bundles and the
      held-out ids: the two loops of the source, appending each val record to
      the list its key selects. */
  method CreateMaxitrainMinival<J>(train: AnnotationSet<J>, val: AnnotationSet<J>, minivalIds: seq<int>)
    returns (maxitrain: AnnotationSet<J>, minival: AnnotationSet<J>)
    ensures maxitrain.images == train.images + Select(val.images, ImageId, minivalIds, false)
    ensures minival.images == Select(val.images, ImageId, minivalIds, true)
    ensures maxitrain.annotations == train.annotations + Select(val.annotations, AnnotationImageId, minivalIds, false)
    ensures minival.annotations == Select(val.annotations, AnnotationImageId, minivalIds, true)
    ensures IsMaxitrainMinival(train, val, minivalIds, maxitrain, minival)
  {
    var maxitrainImages: seq<Image<J>> := [];
    var minivalImages: seq<Image<J>> := [];
    var maxitrainAnnotations: seq<Annotation<J>> := [];
    var minivalAnnotations: seq<Annotation<J>> := [];

    maxitrainImages := maxitrainImages + train.images;
    for i := 0 to |val.images|
      invariant minivalImages == Select(val.images[..i], ImageId, minivalIds, true)
      invariant maxitrainImages == train.images + Select(val.images[..i], ImageId, minivalIds, false)
    {
      var img := val.images[i];
      var imgId := img.id;
      if imgId in minivalIds {
        minivalImages := minivalImages + [img];
      } else {
        maxitrainImages := maxitrainImages + [img];
      }
      SelectPrefixStep(val.images, i, ImageId, minivalIds);
    }
    assert val.images[..|val.images|] == val.images;

    maxitrainAnnotations := maxitrainAnnotations + train.annotations;
    for i := 0 to |val.annotations|
      invariant minivalAnnotations == Select(val.annotations[..i], AnnotationImageId, minivalIds, true)
      invariant maxitrainAnnotations
        == train.annotations + Select(val.annotations[..i], AnnotationImageId, minivalIds, false)
    {
      var ann := val.annotations[i];
      var imgId := ann.imageId;
      if imgId in minivalIds {
        minivalAnnotations := minivalAnnotations + [ann];
      } else {
        maxitrainAnnotations := maxitrainAnnotations + [ann];
      }
      SelectPrefixStep(val.annotations, i, AnnotationImageId, minivalIds);
    }
    assert val.annotations[..|val.annotations|] == val.annotations;

    maxitrain := AnnotationSet(train.info, train.licenses, train.categories,
                               maxitrainImages, maxitrainAnnotations);
    minival := AnnotationSet(train.info, train.licenses, train.categories,
                             minivalImages, minivalAnnotations);

    RoutedAfterTrain(train.images, val.images, ImageId, minivalIds, maxitrainImages, minivalImages);
    RoutedAfterTrain(train.annotations, val.annotations, AnnotationImageId, minivalIds,
                     maxitrainAnnotations, minivalAnnotations);
  }

  /** One list of a split, both directions: the train records open the
      maxitrain list and the rest of it and the minival list are a correct
      routing of the val records if and only if the maxitrain list is the train
      records followed by the complementary filter of the val records and the
      minival list is the filter itself. */
  lemma RoutedAfterTrain<T>(trainPart: seq<T>, valPart: seq<T>, key: T -> int, minivalIds: seq<int>,
                            maxitrainPart: seq<T>, minivalPart: seq<T>)
    ensures (trainPart <= maxitrainPart
             && Partitions(valPart, key, minivalIds, minivalPart, maxitrainPart[|trainPart|..]))
        <==> (maxitrainPart == trainPart + Select(valPart, key, minivalIds, false)
              && minivalPart == Select(valPart, key, minivalIds, true))
  {
    if trainPart <= maxitrainPart {
      assert maxitrainPart == trainPart + maxitrainPart[|trainPart|..];
      PartitionsIffSelect(valPart, key, minivalIds, minivalPart, maxitrainPart[|trainPart|..]);
    }
  }

  /** The description above pins the outputs down completely: two pairs of
      bundles that both satisfy it for the same inputs are equal. */
  lemma SplitIsUnique<J>(
    train: AnnotationSet<J>, val: AnnotationSet<J>, minivalIds: seq<int>,
    maxitrain: AnnotationSet<J>, minival: AnnotationSet<J>,
    maxitrain': AnnotationSet<J>, minival': AnnotationSet<J>)
    requires IsMaxitrainMinival(train, val, minivalIds, maxitrain, minival)
    requires IsMaxitrainMinival(train, val, minivalIds, maxitrain', minival')
    ensures maxitrain == maxitrain' && minival == minival'
  {
    RoutedAfterTrain(train.images, val.images, ImageId, minivalIds, maxitrain.images, minival.images);
    RoutedAfterTrain(train.images, val.images, ImageId, minivalIds, maxitrain'.images, minival'.images);
    RoutedAfterTrain(train.annotations, val.annotations, AnnotationImageId, minivalIds,
                     maxitrain.annotations, minival.annotations);
    RoutedAfterTrain(train.annotations, val.annotations, AnnotationImageId, minivalIds,
                     maxitrain'.annotations, minival'.annotations);
  }

  /** Every val image and every val annotation lands in exactly one output:
      in minival exactly when its key is a held-out id, and otherwise among the
      val-derived records of maxitrain. */
  lemma ValRecordsPlacedOnce<J>(
    train: AnnotationSet<J>, val: AnnotationSet<J>, minivalIds: seq<int>,
    maxitrain: AnnotationSet<J>, minival: AnnotationSet<J>)
    requires IsMaxitrainMinival(train, val, minivalIds, maxitrain, minival)
    ensures forall img | img in val.images ::
      && (img in minival.images <==> img.id in minivalIds)
      && (img in maxitrain.images[|train.images|..] <==> img.id !in minivalIds)
    ensures forall ann | ann in val.annotations ::
      && (ann in minival.annotations <==> ann.imageId in minivalIds)
      && (ann in maxitrain.annotations[|train.annotations|..] <==> ann.imageId !in minivalIds)
  {
    forall img | img in val.images
      ensures img in minival.images <==> img.id in minivalIds
      ensures img in maxitrain.images[|train.images|..] <==> img.id !in minivalIds
    {
      PartitionsPlacement(val.images, ImageId, minivalIds,
                          minival.images, maxitrain.images[|train.images|..], img);
    }
    forall ann | ann in val.annotations
      ensures ann in minival.annotations <==> ann.imageId in minivalIds
      ensures ann in maxitrain.annotations[|train.annotations|..] <==> ann.imageId !in minivalIds
    {
      PartitionsPlacement(val.annotations, AnnotationImageId, minivalIds,
                          minival.annotations, maxitrain.annotations[|train.annotations|..], ann);
    }
  }

  /** Minival holds only val records, each with a held-out key: nothing from
      the train file reaches it unless an identical record is also in val. */
  lemma MinivalOnlyFromVal<J>(
    train: AnnotationSet<J>, val: AnnotationSet<J>, minivalIds: seq<int>,
    maxitrain: AnnotationSet<J>, minival: AnnotationSet<J>)
    requires IsMaxitrainMinival(train, val, minivalIds, maxitrain, minival)
    ensures forall img | img in minival.images :: img in val.images && img.id in minivalIds
    ensures forall ann | ann in minival.annotations :: ann in val.annotations && ann.imageId in minivalIds
  {
    forall img | img in minival.images ensures img in val.images && img.id in minivalIds {
      PartitionsPlacement(val.images, ImageId, minivalIds,
                          minival.images, maxitrain.images[|train.images|..], img);
    }
    forall ann | ann in minival.annotations ensures ann in val.annotations && ann.imageId in minivalIds {
      PartitionsPlacement(val.annotations, AnnotationImageId, minivalIds,
                          minival.annotations, maxitrain.annotations[|train.annotations|..], ann);
    }
  }

  /** No record is lost or duplicated: the outputs together are exactly as
      long as the inputs, for images and for annotations. */
  lemma SplitCountsAddUp<J>(
    train: AnnotationSet<J>, val: AnnotationSet<J>, minivalIds: seq<int>,
    maxitrain: AnnotationSet<J>, minival: AnnotationSet<J>)
    requires IsMaxitrainMinival(train, val, minivalIds, maxitrain, minival)
    ensures |maxitrain.images| + |minival.images| == |train.images| + |val.images|
    ensures |maxitrain.annotations| + |minival.annotations| == |train.annotations| + |val.annotations|
  {
    PartitionsCount(val.images, ImageId, minivalIds,
                    minival.images, maxitrain.images[|train.images|..]);
    PartitionsCount(val.annotations, AnnotationImageId, minivalIds,
                    minival.annotations, maxitrain.annotations[|train.annotations|..]);
  }

  /** The annotation outputs depend only on the annotations and the held-out
      ids: two splits whose inputs agree on their annotations produce the same
      annotation lists, whatever their images are. */
  lemma AnnotationsIgnoreImages<J>(
    train: AnnotationSet<J>, val: AnnotationSet<J>, minivalIds: seq<int>,
    maxitrain: AnnotationSet<J>, minival: AnnotationSet<J>,
    train': AnnotationSet<J>, val': AnnotationSet<J>,
    maxitrain': AnnotationSet<J>, minival': AnnotationSet<J>)
    requires IsMaxitrainMinival(train, val, minivalIds, maxitrain, minival)
    requires IsMaxitrainMinival(train', val', minivalIds, maxitrain', minival')
    requires train.annotations == train'.annotations && val.annotations == val'.annotations
    ensures maxitrain.annotations == maxitrain'.annotations
    ensures minival.annotations == minival'.annotations
  {
    RoutedAfterTrain(train.annotations, val.annotations, AnnotationImageId, minivalIds,
                     maxitrain.annotations, minival.annotations);
    RoutedAfterTrain(train'.annotations, val'.annotations, AnnotationImageId, minivalIds,
                     maxitrain'.annotations, minival'.annotations);
  }

  /** The split never checks an annotation against the images: a val
      annotation that refers to a train image with a held-out id goes to
      minival, while its image stays in maxitrain and minival has no image. */
  lemma AnnotationMaySeparateFromImage<J>(
    train: AnnotationSet<J>, val: AnnotationSet<J>, minivalIds: seq<int>,
    maxitrain: AnnotationSet<J>, minival: AnnotationSet<J>, img: Image<J>, ann: Annotation<J>)
    requires train.images == [img] && val.images == [] && train.annotations == []
    requires val.annotations == [ann] && ann.imageId == img.id && minivalIds == [img.id]
    requires IsMaxitrainMinival(train, val, minivalIds, maxitrain, minival)
    ensures maxitrain.images == [img] && minival.images == []
    ensures minival.annotations == [ann] && maxitrain.annotations == []
  {
    PartitionsAreSelect(val.images, ImageId, minivalIds,
                        minival.images, maxitrain.images[|train.images|..]);
    PartitionsAreSelect(val.annotations, AnnotationImageId, minivalIds,
                        minival.annotations, maxitrain.annotations[|train.annotations|..]);
    assert maxitrain.images == train.images + maxitrain.images[|train.images|..];
    assert maxitrain.annotations == train.annotations + maxitrain.annotations[|train.annotations|..];
  }
}
