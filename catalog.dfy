/**
 * The records returned by the two information_schema catalog queries of
 * IdReplacer (`_get_primary_keys`, `_get_foreign_keys`).  The queries
 * themselves are not modelled: a store answers them with these rows.
 */
module Catalog {

  /** One row of the primary-key query: a PRIMARY KEY column of type integer or bigint. */
  datatype PkRow = PkRow(
    tableSchema: string,
    tableName: string,
    columnName: string,
    dataType: string)

  /** One row of the foreign-key query: a FOREIGN KEY column and the column it references. */
  datatype FkRow = FkRow(
    tableSchema: string,
    tableName: string,
    columnName: string,
    dataType: string,
    foreignTableSchema: string,
    foreignTableName: string,
    foreignColumnName: string,
    constraintName: string)
}
