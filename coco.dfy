/** The COCO annotation records the split works on, already decoded from JSON.
    Only the fields the split reads are modelled; everything else about a
    record is an opaque payload of type J that is passed through unchanged. */
module Coco {

  /** An entry of the "images" list: its integer "id" and the rest of the entry. */
  datatype Image<J> = Image(id: int, fields: J)

  /** An entry of the "annotations" list: the "image_id" it refers to and the rest. */
  datatype Annotation<J> = Annotation(imageId: int, fields: J)

  /** A COCO annotation bundle with the five top-level keys the split reads and writes. */
  datatype AnnotationSet<J> = AnnotationSet(
    info: J,
    licenses: seq<J>,
    categories: seq<J>,
    images: seq<Image<J>>,
    annotations: seq<Annotation<J>>)

  /** The key an image is routed by: `img['id']`. */
  function ImageId<J>(img: Image<J>): (r: int)
  {
    img.id
  }

  /** The key an annotation is routed by: `ann['image_id']`. */
  function AnnotationImageId<J>(ann: Annotation<J>): (r: int)
  {
    ann.imageId
  }
}
