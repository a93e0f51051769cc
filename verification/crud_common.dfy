/** Values shared by the crud components: Java class handles and the
    exceptions the request phase raises, tagged by the class hierarchy they belong to. */
module CrudCommon {

  /** A `Class<?>` handle, identified by its fully qualified name. */
  datatype ClassRef = ClassRef(name: string)

  const ObjectClass: ClassRef := ClassRef("java.lang.Object")

  /** The Java exception classes the request phase distinguishes. Each kind
      is classified as `instanceof` does: `IllegalArgument` stands for
      `IllegalArgumentException` and all its subclasses (such as
      `NumberFormatException`), and likewise for the others, while
      `OtherException` names only a class outside every listed hierarchy. */
  datatype ExceptionKind =
    | IllegalArgument
    | BadRequest
    | Instantiation
    | IllegalAccess
    | IndexOutOfBounds
    | OtherException(className: string)

  /** Message-bundle keys, with the values they are formatted with. */
  datatype Message =
    | DescParameterWithoutSortParameter
    | FieldRequestDoesNotExistsOnSearchField(field: string)
    | IndexOutOfRange(index: int)
    | Detail(text: string)

  /** An exception of the given class carrying the given message. */
  datatype Thrown = Thrown(kind: ExceptionKind, message: Message)
}
