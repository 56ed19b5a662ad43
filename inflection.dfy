/** The string helpers of `@adonisjs/core` that the generator calls: inflection
    (`singular`, `plural`), case conversion (`camelCase`, `snakeCase`, `pascalCase`) and
    the model naming of `generators` (`modelName`, `modelFileName`). They belong to a
    library outside this model, so they are a parameter of every operation that uses them,
    and every property proved here holds whatever they compute. */
module Inflection {

  datatype Inflector = Inflector(
    singular: string -> string,
    plural: string -> string,
    camelCase: string -> string,
    snakeCase: string -> string,
    pascalCase: string -> string,
    modelName: string -> string,
    modelFileName: string -> string)
}
